/** The page cache implements a map from keys to pages that remembers, for every page, which subpage was put or
 *  got last. */
module CacheModel {
  import opened Common
  import opened PageCache
  import CacheWalk

  /** The cached pages by key, and the newest subpage of every cached page. */
  datatype Model = Model(pages: map<Key, Page>, newest: map<int, int>)

  /* ---- The operations on maps ---- */

  function ModelPut(m: Model, erc: bool, p: Page): Model
    requires FullText(p) && (KeyOf(p) in m.pages ==> FullText(m.pages[KeyOf(p)]))
  {
    var q := if KeyOf(p) in m.pages && erc then Merge(m.pages[KeyOf(p)], p) else p;
    Model(m.pages[KeyOf(p) := q], m.newest[p.pgno := p.subno])
  }

  /** The key a request is for. */
  function Wanted(m: Model, pgno: int, subno: int): Option<Key> {
    if subno == ANY_SUB then if pgno in m.newest then Some((pgno, m.newest[pgno])) else None
    else if (pgno, subno) in m.pages then Some((pgno, subno))
    else None
  }

  function ModelGet(m: Model, pgno: int, subno: int): Model {
    var k := Wanted(m, pgno, subno);
    if k.None? then m else m.(newest := m.newest[pgno := k.value.1])
  }

  function ModelReset(m: Model): Model {
    Model(map k | k in m.pages && k.0 / 256 == 9 :: m.pages[k], map n | n in m.newest && n / 256 == 9 :: m.newest[n])
  }

  /* ---- The relation ---- */

  ghost predicate SamePages(ca: Cache, pages: map<Key, Page>)
    requires Shaped(ca)
  {
    && (forall p: Page :: p in ca.hash[Hash(p.pgno)] ==> KeyOf(p) in pages && pages[KeyOf(p)] == p)
    && (forall k :: k in pages ==> KeyOf(pages[k]) == k && pages[k] in ca.hash[Hash(k.0)])
  }

  ghost predicate SameNewest(ca: Cache, newest: map<int, int>)
    requires Shaped(ca)
  {
    forall n: int :: (n in newest <==> Lookup(ca, n, ANY_SUB).Some?)
      && (n in newest ==> newest[n] == Lookup(ca, n, ANY_SUB).value.subno)
  }

  ghost predicate Represents(ca: Cache, m: Model) {
    Inv(ca) && SamePages(ca, m.pages) && SameNewest(ca, m.newest)
  }

  lemma FindIs(list: seq<Page>, pgno: int, subno: int, i: nat, r: nat)
    requires i <= r <= |list| && (r < |list| ==> Matches(list[r], pgno, subno))
    requires forall k :: i <= k < r ==> !Matches(list[k], pgno, subno)
    ensures Find(list, pgno, subno, i) == r
    decreases |list| - i
  {
    if i < r { FindIs(list, pgno, subno, i + 1, r); }
  }

  /** Moving another page to the front does not change which subpage of `n` is first. */
  lemma FrontKeepsFirst(list: seq<Page>, i: nat, q: Page, n: int)
    requires i <= |list| && q.pgno != n && (i < |list| ==> list[i].pgno != n)
    ensures var more := [q] + Without(list, i);
      var r := Find(list, n, ANY_SUB, 0);
      var s := Find(more, n, ANY_SUB, 0);
      (r < |list| <==> s < |more|) && (r < |list| ==> more[s] == list[r])
  {
    var more := [q] + Without(list, i);
    var r := Find(list, n, ANY_SUB, 0);
    var s := if r == |list| then |more| else Moved(i, r);
    if r < |list| { FrontedAt(list, i, q, r); }
    forall k | 0 <= k < s ensures !Matches(more[k], n, ANY_SUB) {
      if k > 0 { WithoutAt(list, i, k - 1); }
    }
    FindIs(more, n, ANY_SUB, 0, s);
  }

  lemma FrontedNewest(ca: Cache, da: Cache, i: nat, q: Page, newest: map<int, int>)
    requires Inv(ca) && SameNewest(ca, newest) && Fronted(ca, da, i, q)
    ensures SameNewest(da, newest[q.pgno := q.subno])
  {
    var h := Hash(q.pgno);
    forall n: int ensures (n in newest[q.pgno := q.subno] <==> Lookup(da, n, ANY_SUB).Some?)
      && (n in newest[q.pgno := q.subno] ==> newest[q.pgno := q.subno][n] == Lookup(da, n, ANY_SUB).value.subno)
    {
      if n == q.pgno {
        FindIs(da.hash[h], n, ANY_SUB, 0, 0);
      } else if Hash(n) == h {
        FrontKeepsFirst(ca.hash[h], i, q, n);
      }
    }
  }

  /** The bucket holds `q` and the pages it held under other keys. */
  lemma FrontContains(list: seq<Page>, i: nat, q: Page, p: Page)
    requires Distinct(list) && i <= |list|
    requires if i < |list| then KeyOf(list[i]) == KeyOf(q) else forall k :: 0 <= k < |list| ==> KeyOf(list[k]) != KeyOf(q)
    ensures p in [q] + Without(list, i) <==> p == q || (p in list && KeyOf(p) != KeyOf(q))
  {
    if p in Without(list, i) {
      var k :| 0 <= k < |Without(list, i)| && Without(list, i)[k] == p;
      WithoutAt(list, i, k);
    }
    if p in list && KeyOf(p) != KeyOf(q) {
      var k :| 0 <= k < |list| && list[k] == p;
      FrontedAt(list, i, q, k);
    }
  }

  lemma FrontedHolds(ca: Cache, da: Cache, i: nat, q: Page, p: Page)
    requires Inv(ca) && Fronted(ca, da, i, q)
    ensures p in da.hash[Hash(p.pgno)] <==> p == q || (p in ca.hash[Hash(p.pgno)] && KeyOf(p) != KeyOf(q))
  {
    var h := Hash(q.pgno);
    var list := ca.hash[h];
    if Hash(p.pgno) == h {
      assert GoodList(ca, h);
      assert i == |list| ==> forall k :: 0 <= k < |list| ==> KeyOf(list[k]) != KeyOf(q);
      FrontContains(list, i, q, p);
    }
  }

  lemma FrontedPages(ca: Cache, da: Cache, i: nat, q: Page, pages: map<Key, Page>)
    requires Inv(ca) && SamePages(ca, pages) && Fronted(ca, da, i, q)
    ensures SamePages(da, pages[KeyOf(q) := q])
  {
    var pages' := pages[KeyOf(q) := q];
    forall p: Page | p in da.hash[Hash(p.pgno)] ensures KeyOf(p) in pages' && pages'[KeyOf(p)] == p {
      FrontedHolds(ca, da, i, q, p);
    }
    forall k | k in pages' ensures KeyOf(pages'[k]) == k && pages'[k] in da.hash[Hash(k.0)] {
      FrontedHolds(ca, da, i, q, pages'[k]);
    }
  }

  lemma FrontedRepresents(ca: Cache, da: Cache, i: nat, q: Page, m: Model)
    requires Represents(ca, m) && Fronted(ca, da, i, q)
    ensures Represents(da, Model(m.pages[KeyOf(q) := q], m.newest[q.pgno := q.subno]))
  {
    FrontedInv(ca, da, i, q);
    FrontedNewest(ca, da, i, q, m.newest);
    FrontedPages(ca, da, i, q, m.pages);
  }

  /* ---- Refinement ---- */

  lemma EmptyRefines()
    ensures Represents(Empty(), Model(map[], map[]))
  {
    EmptyInv();
  }

  /** A page is stored under its key, merged with what was there, and becomes the newest. */
  lemma PutRefines(ca: Cache, m: Model, p: Page)
    requires Represents(ca, m) && Cacheable(p)
    ensures KeyOf(p) in m.pages ==> FullText(m.pages[KeyOf(p)])
    ensures Represents(Put(ca, p).ca, ModelPut(m, ca.erc, p))
    ensures Put(ca, p).page == Some(ModelPut(m, ca.erc, p).pages[KeyOf(p)])
  {
    var list := ca.hash[Hash(p.pgno)];
    var i := FindKey(list, KeyOf(p), 0);
    assert GoodList(ca, Hash(p.pgno));
    assert (KeyOf(p) in m.pages) == (i < |list|);
    assert i < |list| ==> m.pages[KeyOf(p)] == list[i];
    PutFronts(ca, p);
    FrontedRepresents(ca, Put(ca, p).ca, i, Put(ca, p).page.value, m);
  }

  /** What a request finds is the page under the wanted key. */
  lemma FoundIsWanted(ca: Cache, m: Model, pgno: int, subno: int)
    requires Represents(ca, m)
    ensures var k := Wanted(m, pgno, subno);
      if k.Some? then k.value in m.pages && Lookup(ca, pgno, subno) == Some(m.pages[k.value])
      else Lookup(ca, pgno, subno) == None
  {
    var list := ca.hash[Hash(pgno)];
    var i := Find(list, pgno, subno, 0);
    assert GoodList(ca, Hash(pgno));
    if i < |list| {
      assert list[i] in list;
    }
  }

  /** The page found is the one with the key, or the newest subpage for the wildcard, and becomes the newest. */
  lemma GetRefines(ca: Cache, m: Model, pgno: int, subno: int)
    requires Represents(ca, m)
    ensures Represents(Get(ca, pgno, subno).ca, ModelGet(m, pgno, subno))
    ensures var k := Wanted(m, pgno, subno);
      if k.Some? then k.value in m.pages && Get(ca, pgno, subno).page == Some(m.pages[k.value])
      else Get(ca, pgno, subno).page == None
  {
    FoundIsWanted(ca, m, pgno, subno);
    var r := Get(ca, pgno, subno);
    if r.page.Some? {
      var q := r.page.value;
      GetFronts(ca, pgno, subno);
      FrontedRepresents(ca, r.ca, Find(ca.hash[Hash(pgno)], pgno, subno, 0), q, m);
      assert m.pages[KeyOf(q) := q] == m.pages;
    }
  }

  lemma {:induction false} HelpFirst(list: seq<Page>, n: int)
    ensures var r := Find(list, n, ANY_SUB, 0);
      var s := Find(Help(list), n, ANY_SUB, 0);
      (s < |Help(list)| <==> r < |list| && n / 256 == 9) && (s < |Help(list)| ==> Help(list)[s] == list[r])
  {
    if list != [] {
      HelpFirst(list[1..], n);
      FindTail(list, n);
      if list[0].pgno / 256 == 9 {
        assert Help(list)[1..] == Help(list[1..]);
        FindTail(Help(list), n);
      } else if list[0].pgno == n {
        HelpKeeps(list);
        assert forall k :: 0 <= k < |Help(list)| ==> Help(list)[k] in Help(list);
      }
    }
  }

  lemma FindTail(list: seq<Page>, n: int)
    requires list != []
    ensures Find(list, n, ANY_SUB, 0) == if list[0].pgno == n then 0 else 1 + Find(list[1..], n, ANY_SUB, 0)
  {
    var r := Find(list[1..], n, ANY_SUB, 0);
    if list[0].pgno != n {
      forall k | 0 <= k < 1 + r ensures !Matches(list[k], n, ANY_SUB) {
        if k > 0 { assert list[k] == list[1..][k - 1]; }
      }
      FindIs(list, n, ANY_SUB, 0, 1 + r);
    }
  }

  /** Exactly the pages 0x900 to 0x9ff stay. */
  lemma ResetRefines(ca: Cache, m: Model)
    requires Represents(ca, m)
    ensures Represents(Reset(ca), ModelReset(m))
  {
    ResetInv(ca);
    var da := Reset(ca);
    forall h | 0 <= h < HASH_SIZE ensures da.hash[h] == Help(ca.hash[h]) {}
    forall p: Page ensures p in da.hash[Hash(p.pgno)] <==> p in ca.hash[Hash(p.pgno)] && p.pgno / 256 == 9 {
      HelpKeeps(ca.hash[Hash(p.pgno)]);
    }
    forall n: int ensures Lookup(da, n, ANY_SUB) == if n / 256 == 9 then Lookup(ca, n, ANY_SUB) else None {
      HelpFirst(ca.hash[Hash(n)], n);
    }
  }

  /* ---- Counting ---- */

  ghost function ListKeys(list: seq<Page>): set<Key> {
    set i | 0 <= i < |list| :: KeyOf(list[i])
  }

  lemma {:induction false} ListKeysSize(list: seq<Page>)
    requires Distinct(list)
    ensures |ListKeys(list)| == |list|
  {
    if list != [] {
      var n := |list| - 1;
      ListKeysSize(list[..n]);
      assert ListKeys(list) == ListKeys(list[..n]) + {KeyOf(list[n])};
    }
  }

  /** The keys in the buckets. */
  ghost function TableKeys(hash: seq<seq<Page>>): set<Key> {
    if hash == [] then {} else TableKeys(hash[..|hash| - 1]) + ListKeys(hash[|hash| - 1])
  }

  lemma {:induction false} TableKeysAre(hash: seq<seq<Page>>, k: Key)
    requires forall h, i :: 0 <= h < |hash| && 0 <= i < |hash[h]| ==> Hash(hash[h][i].pgno) == h
    ensures k in TableKeys(hash) <==> Hash(k.0) < |hash| && k in ListKeys(hash[Hash(k.0)])
  {
    if hash != [] {
      var n := |hash| - 1;
      TableKeysAre(hash[..n], k);
    }
  }

  lemma {:induction false} TableKeysSize(hash: seq<seq<Page>>)
    requires forall h :: 0 <= h < |hash| ==> Distinct(hash[h])
    requires forall h, i :: 0 <= h < |hash| && 0 <= i < |hash[h]| ==> Hash(hash[h][i].pgno) == h
    ensures |TableKeys(hash)| == Total(hash)
  {
    if hash != [] {
      var n := |hash| - 1;
      TableKeysSize(hash[..n]);
      ListKeysSize(hash[n]);
      forall k | k in TableKeys(hash[..n]) ensures k !in ListKeys(hash[n]) { TableKeysAre(hash[..n], k); }
      assert TableKeys(hash[..n]) !! ListKeys(hash[n]);
    }
  }

  /** `npages` is the number of cached pages. */
  lemma PagesCounted(ca: Cache, m: Model)
    requires Represents(ca, m)
    ensures ca.npages == |m.pages|
  {
    forall h | 0 <= h < HASH_SIZE ensures Distinct(ca.hash[h]) && forall i :: 0 <= i < |ca.hash[h]| ==> Hash(ca.hash[h][i].pgno) == h {
      assert GoodList(ca, h);
    }
    TableKeysSize(ca.hash);
    forall k ensures k in TableKeys(ca.hash) <==> k in m.pages {
      var list := ca.hash[Hash(k.0)];
      TableKeysAre(ca.hash, k);
      if k in ListKeys(list) {
        var i :| 0 <= i < |list| && KeyOf(list[i]) == k;
        assert list[i] in list;
      }
      if k in m.pages {
        var i :| 0 <= i < |list| && list[i] == m.pages[k];
        assert KeyOf(list[i]) in ListKeys(list);
      }
    }
    assert TableKeys(ca.hash) == m.pages.Keys;
  }

  /* ---- Runs ---- */

  datatype Op = DoPut(p: Page) | DoGet(pgno: int, subno: int) | DoReset | DoMode(erc: bool)

  predicate Allowed(op: Op) { op.DoPut? ==> Cacheable(op.p) }

  lemma ModeInv(ca: Cache, erc: bool)
    requires Inv(ca)
    ensures Inv(ca.(erc := erc))
  {
    assert forall h :: 0 <= h < HASH_SIZE && GoodList(ca, h) ==> GoodList(ca.(erc := erc), h);
    forall p | 0 <= p <= LAST_PAGE ensures Exact(ca.(erc := erc), p) { assert Exact(ca, p); }
  }

  function Step(ca: Cache, op: Op): (r: Cache)
    requires Inv(ca) && Allowed(op)
    ensures Inv(r)
  {
    match op
    case DoPut(p) => PutInv(ca, p); Put(ca, p).ca
    case DoGet(pgno, subno) => GetInv(ca, pgno, subno); Get(ca, pgno, subno).ca
    case DoReset => ResetInv(ca); Reset(ca)
    case DoMode(erc) => ModeInv(ca, erc); ca.(erc := erc)
  }

  /** What the same operations do to the map; the error reduction mode is passed on. */
  ghost predicate ModelStep(m: Model, erc: bool, op: Op, m': Model, erc': bool) {
    match op
    case DoPut(p) => erc' == erc && FullText(p) && (KeyOf(p) in m.pages ==> FullText(m.pages[KeyOf(p)])) && m' == ModelPut(m, erc, p)
    case DoGet(pgno, subno) => erc' == erc && m' == ModelGet(m, pgno, subno)
    case DoReset => erc' == erc && m' == ModelReset(m)
    case DoMode(on) => erc' == on && m' == m
  }

  function Run(ca: Cache, ops: seq<Op>): (r: Cache)
    requires Inv(ca) && forall op :: op in ops ==> Allowed(op)
    ensures Inv(r)
    decreases |ops|
  {
    if ops == [] then ca else Run(Step(ca, ops[0]), ops[1..])
  }

  /** A run of the maps, step by step. */
  ghost predicate ModelRun(ms: seq<Model>, ercs: seq<bool>, ops: seq<Op>) {
    && |ms| == |ercs| == |ops| + 1
    && forall i :: 0 <= i < |ops| ==> ModelStep(ms[i], ercs[i], ops[i], ms[i + 1], ercs[i + 1])
  }

  lemma StepRefines(ca: Cache, m: Model, op: Op) returns (m': Model)
    requires Represents(ca, m) && Allowed(op)
    ensures Represents(Step(ca, op), m') && ModelStep(m, ca.erc, op, m', Step(ca, op).erc)
  {
    match op
    case DoPut(p) => PutRefines(ca, m, p); m' := ModelPut(m, ca.erc, p);
    case DoGet(pgno, subno) => GetRefines(ca, m, pgno, subno); m' := ModelGet(m, pgno, subno);
    case DoReset => ResetRefines(ca, m); m' := ModelReset(m);
    case DoMode(erc) =>
      m' := m;
      assert forall n: int :: Lookup(ca.(erc := erc), n, ANY_SUB) == Lookup(ca, n, ANY_SUB);
  }

  /** Every run of the cache is a run of the maps. */
  lemma {:induction false} RunRefines(ca: Cache, m: Model, ops: seq<Op>) returns (ms: seq<Model>, ercs: seq<bool>)
    requires Represents(ca, m) && forall op :: op in ops ==> Allowed(op)
    ensures ModelRun(ms, ercs, ops) && ms[0] == m && ercs[0] == ca.erc
    ensures Represents(Run(ca, ops), ms[|ops|]) && Run(ca, ops).npages == |ms[|ops|].pages|
    decreases |ops|
  {
    if ops == [] {
      ms, ercs := [m], [ca.erc];
      PagesCounted(ca, m);
    } else {
      var m' := StepRefines(ca, m, ops[0]);
      var ms', ercs' := RunRefines(Step(ca, ops[0]), m', ops[1..]);
      ms, ercs := [m] + ms', [ca.erc] + ercs';
    }
  }

  /** Every run of a cache just opened is a run of the maps from the empty one. */
  lemma RunsFromEmpty(ops: seq<Op>) returns (ms: seq<Model>, ercs: seq<bool>)
    requires forall op :: op in ops ==> Allowed(op)
    ensures Inv(Empty()) && ModelRun(ms, ercs, ops) && ms[0] == Model(map[], map[]) && ercs[0]
    ensures Represents(Run(Empty(), ops), ms[|ops|]) && Run(Empty(), ops).npages == |ms[|ops|].pages|
  {
    EmptyRefines();
    ms, ercs := RunRefines(Empty(), Model(map[], map[]), ops);
  }

  /** On the maps: the walk over the cache can be relied on when no subpage numbered like the wildcard is cached
   *  that is not the newest of its page. */
  lemma WildcardsInModel(ca: Cache, m: Model)
    requires Represents(ca, m)
    ensures CacheWalk.CachedWildcardsNewest(ca)
      <==> forall k :: k in m.pages && k.1 == ANY_SUB ==> k.0 in m.newest && m.newest[k.0] == ANY_SUB
  {
    if CacheWalk.CachedWildcardsNewest(ca) {
      forall k | k in m.pages && k.1 == ANY_SUB ensures k.0 in m.newest && m.newest[k.0] == ANY_SUB {
        assert CacheWalk.Cached(ca, m.pages[k]);
      }
    } else {
      var v: Page :| CacheWalk.Cached(ca, v) && v.subno == ANY_SUB && Lookup(ca, v.pgno, ANY_SUB) != Some(v);
      assert KeyOf(v) in m.pages;
      FoundIsWanted(ca, m, v.pgno, ANY_SUB);
    }
  }

  /** A page as the receiver numbers it. */
  predicate FromReceiver(op: Op) { op.DoPut? ==> op.p.subno <= ANY_SUB }

  lemma {:induction false} RunReceived(ca: Cache, ops: seq<Op>)
    requires Inv(ca) && CacheWalk.Received(ca.hi) && forall op :: op in ops ==> Allowed(op) && FromReceiver(op)
    ensures CacheWalk.Received(Run(ca, ops).hi)
    decreases |ops|
  {
    if ops != [] { RunReceived(Step(ca, ops[0]), ops[1..]); }
  }

  /** After every run with pages from the receiver the walk, wherever it starts, can be relied on exactly when on the
   *  maps every page stored under the wildcard's number is the newest one. */
  lemma RunReliableExactly(ops: seq<Op>, m: Model, pgno: int, subno: int, dir: int)
    requires forall op :: op in ops ==> Allowed(op) && FromReceiver(op)
    requires FIRST_PAGE <= pgno <= LAST_PAGE && (dir == 1 || dir == -1)
    ensures Inv(Empty())
    ensures var ca := Run(Empty(), ops);
      Represents(ca, m) ==>
        ((forall func: Page -> bool :: CacheWalk.NullMeansNone(ca, pgno, subno, dir, func))
         <==> forall k :: k in m.pages && k.1 == ANY_SUB ==> k.0 in m.newest && m.newest[k.0] == ANY_SUB)
  {
    EmptyInv();
    RunReceived(Empty(), ops);
    var ca := Run(Empty(), ops);
    CacheWalk.ReliableExactly(ca, pgno, subno, dir);
    if Represents(ca, m) { WildcardsInModel(ca, m); }
  }
}
