/** The teletext page cache (alevt/cache.c): a hash table of lists in which a page moves to the front when it is
 *  used, and a side table with the highest subpage number of every page.
 *
 *  This module gives the operations on values and proves that they implement a map from page and subpage
 *  numbers to pages that remembers the newest subpage of every page.
 */
module PageCache {
  import opened Common

  const HASH_SIZE := 113
  const ANY_SUB := 0x3f7f
  const W := 40
  const H := 25
  const BAD_CHAR: byte := 0xb8
  const FIRST_PAGE := 0x100
  const LAST_PAGE := 0x9ff

  /** `struct vt_page`; `lines` is the set of the lines received, `rest` the fields the cache only copies. */
  datatype Page = Page(pgno: int, subno: int, errors: int, lines: set<nat>, text: seq<seq<byte>>, rest: seq<int>)

  type Key = (int, int)

  function KeyOf(p: Page): Key { (p.pgno, p.subno) }

  predicate FullText(p: Page) {
    |p.text| == H && forall l :: 0 <= l < H ==> |p.text[l]| == W
  }

  datatype Cache = Cache(hash: seq<seq<Page>>, erc: bool, npages: int, hi: seq<int>)

  function Hash(pgno: int): nat { pgno % HASH_SIZE }

  /* ---- Error reduction ---- */

  function MergeRow(was: seq<byte>, now: seq<byte>, had: bool, got: bool): seq<byte>
    requires |was| == |now| == W
  {
    if !got then was
    else if had then seq(W, c requires 0 <= c < W => if now[c] == BAD_CHAR then was[c] else now[c])
    else now
  }

  /** `do_erc`: what becomes of a page that is received again. */
  function Merge(was: Page, now: Page): (r: Page)
    requires FullText(was) && FullText(now)
    ensures FullText(r) && KeyOf(r) == KeyOf(now)
  {
    if now.errors == 0 && was.lines == now.lines then now
    else now.(
      text := seq(H, l requires 0 <= l < H => MergeRow(was.text[l], now.text[l], l in was.lines, l in now.lines)),
      lines := now.lines + was.lines)
  }

  /** A character of the merged page is bad only if both receptions had it bad, or the only reception of its
   *  line did; a good character just received is never replaced. */
  lemma MergeRepairs(was: Page, now: Page, l: nat, c: nat)
    requires FullText(was) && FullText(now) && l < H && c < W
    requires now.errors != 0 || was.lines != now.lines
    ensures var r := Merge(was, now);
      && r.lines == was.lines + now.lines
      && (r.text[l][c] == BAD_CHAR <==>
            (l in now.lines ==> now.text[l][c] == BAD_CHAR) && (l !in now.lines || l in was.lines ==> was.text[l][c] == BAD_CHAR))
      && (l in now.lines && now.text[l][c] != BAD_CHAR ==> r.text[l][c] == now.text[l][c])
      && (l !in now.lines ==> r.text[l][c] == was.text[l][c])
  {
  }

  /* A page received again and again. */

  predicate AllFull(rs: seq<Page>) { forall p <- rs :: FullText(p) }

  /** No bad character where no parity error was counted. */
  predicate Counted(p: Page, l: nat, c: nat)
    requires l < H && c < W && FullText(p)
  {
    p.errors == 0 && l in p.lines ==> p.text[l][c] != BAD_CHAR
  }

  /** What is stored after the receptions of a page, the oldest first. */
  function Merged(rs: seq<Page>): (r: Page)
    requires rs != [] && AllFull(rs)
    ensures FullText(r)
  {
    assert rs[|rs| - 1] in rs;
    if |rs| == 1 then rs[0] else Merge(Merged(rs[..|rs| - 1]), rs[|rs| - 1])
  }

  /** The lines received at least once. */
  function Lines(rs: seq<Page>): set<nat> {
    if rs == [] then {} else Lines(rs[..|rs| - 1]) + rs[|rs| - 1].lines
  }

  /** The latest good reception of a character, or the mark for a bad one. */
  function Best(rs: seq<Page>, l: nat, c: nat): byte
    requires l < H && c < W && AllFull(rs)
  {
    if rs == [] then BAD_CHAR
    else
      var p := rs[|rs| - 1];
      assert p in rs;
      if l in p.lines && p.text[l][c] != BAD_CHAR then p.text[l][c] else Best(rs[..|rs| - 1], l, c)
  }

  /** Whatever the receptions, of every line received once each character is its latest good reception. */
  lemma {:induction false} MergedIsBest(rs: seq<Page>, l: nat, c: nat)
    requires rs != [] && l < H && c < W && AllFull(rs) && forall p <- rs :: Counted(p, l, c)
    ensures Merged(rs).lines == Lines(rs)
    ensures l in Lines(rs) ==> Merged(rs).text[l][c] == Best(rs, l, c)
  {
    var init, p := rs[..|rs| - 1], rs[|rs| - 1];
    assert p in rs;
    if |rs| == 1 {
      assert init == [] && rs[0] == p;
    } else {
      MergedIsBest(init, l, c);
    }
    if l !in Lines(init) { NeverReceived(init, l, c); }
  }

  lemma {:induction false} NeverReceived(rs: seq<Page>, l: nat, c: nat)
    requires l < H && c < W && AllFull(rs) && l !in Lines(rs)
    ensures Best(rs, l, c) == BAD_CHAR
  {
    if rs != [] { NeverReceived(rs[..|rs| - 1], l, c); }
  }

  /** It is bad exactly if every reception of its line had it bad. */
  lemma {:induction false} BestIsBad(rs: seq<Page>, l: nat, c: nat)
    requires l < H && c < W && AllFull(rs)
    ensures Best(rs, l, c) == BAD_CHAR <==> forall p <- rs :: l in p.lines ==> p.text[l][c] == BAD_CHAR
  {
    if rs != [] {
      var init := rs[..|rs| - 1];
      BestIsBad(init, l, c);
      assert rs == init + [rs[|rs| - 1]];
    }
  }

  /* ---- Lists ---- */

  predicate Matches(p: Page, pgno: int, subno: int) { p.pgno == pgno && (subno == ANY_SUB || p.subno == subno) }

  /** The first page of the list from `i` on that matches, or the length of the list. */
  function Find(list: seq<Page>, pgno: int, subno: int, i: nat): (r: nat)
    requires i <= |list|
    ensures i <= r <= |list|
    ensures r < |list| ==> Matches(list[r], pgno, subno)
    ensures forall k :: i <= k < r ==> !Matches(list[k], pgno, subno)
    decreases |list| - i
  {
    if i == |list| || Matches(list[i], pgno, subno) then i else Find(list, pgno, subno, i + 1)
  }

  /** The page with exactly this key, as `cache_put` looks for it. */
  function FindKey(list: seq<Page>, key: Key, i: nat): (r: nat)
    requires i <= |list|
    ensures i <= r <= |list|
    ensures r < |list| ==> KeyOf(list[r]) == key
    ensures forall k :: i <= k < r ==> KeyOf(list[k]) != key
    decreases |list| - i
  {
    if i == |list| || KeyOf(list[i]) == key then i else FindKey(list, key, i + 1)
  }

  /** The list without its page `i`, if it has one. */
  function Without(list: seq<Page>, i: nat): seq<Page>
    requires i <= |list|
  {
    if i == |list| then list else list[..i] + list[i + 1..]
  }

  /** The pages of a list that `cache_reset` keeps. */
  function Help(list: seq<Page>): seq<Page> {
    if list == [] then []
    else if list[0].pgno / 256 == 9 then [list[0]] + Help(list[1..])
    else Help(list[1..])
  }

  /** The number of pages in the table. */
  function Total(hash: seq<seq<Page>>): nat {
    if hash == [] then 0 else Total(hash[..|hash| - 1]) + |hash[|hash| - 1]|
  }

  /* ---- The invariant ---- */

  predicate Shaped(ca: Cache) {
    |ca.hash| == HASH_SIZE && |ca.hi| == LAST_PAGE + 1
  }

  ghost predicate Distinct(list: seq<Page>) {
    forall i, j :: 0 <= i < j < |list| ==> KeyOf(list[i]) != KeyOf(list[j])
  }

  /** A page the cache can hold. */
  predicate Cacheable(p: Page) {
    FIRST_PAGE <= p.pgno <= LAST_PAGE && 0 <= p.subno < 0xffff && FullText(p)
  }

  ghost predicate GoodList(ca: Cache, h: int)
    requires Shaped(ca) && 0 <= h < HASH_SIZE
  {
    && Distinct(ca.hash[h])
    && forall i :: 0 <= i < |ca.hash[h]| ==>
         var p := ca.hash[h][i]; Cacheable(p) && Hash(p.pgno) == h && p.subno < ca.hi[p.pgno]
  }

  /** The page and subpage are in the table. */
  ghost predicate Has(ca: Cache, key: Key)
    requires Shaped(ca)
  {
    exists i :: 0 <= i < |ca.hash[Hash(key.0)]| && KeyOf(ca.hash[Hash(key.0)][i]) == key
  }

  ghost predicate Inv(ca: Cache) {
    && Shaped(ca)
    && (forall h :: 0 <= h < HASH_SIZE ==> GoodList(ca, h))
    && ca.npages == Total(ca.hash)
    && (forall p :: 0 <= p <= LAST_PAGE ==> 0 <= ca.hi[p] <= 0xffff)
    && (forall p :: 0 <= p <= LAST_PAGE ==> Exact(ca, p))
  }

  /** The highest subpage the side table tells of is cached. */
  ghost predicate Exact(ca: Cache, p: int)
    requires Shaped(ca) && 0 <= p <= LAST_PAGE
  {
    ca.hi[p] > 0 ==> Has(ca, (p, ca.hi[p] - 1))
  }

  /* ---- Operations ---- */

  function Empty(): Cache {
    Cache(seq(HASH_SIZE, _ => []), true, 0, seq(LAST_PAGE + 1, _ => 0))
  }

  /** `cache_lookup` */
  function Lookup(ca: Cache, pgno: int, subno: int): Option<Page>
    requires Shaped(ca)
  {
    var list := ca.hash[Hash(pgno)];
    var i := Find(list, pgno, subno, 0);
    if i < |list| then Some(list[i]) else None
  }

  datatype Result = Result(ca: Cache, page: Option<Page>)

  /** `cache_get` */
  function Get(ca: Cache, pgno: int, subno: int): Result
    requires Shaped(ca)
  {
    var h := Hash(pgno);
    var i := Find(ca.hash[h], pgno, subno, 0);
    if i == |ca.hash[h]| then Result(ca, None)
    else Result(ca.(hash := ca.hash[h := [ca.hash[h][i]] + Without(ca.hash[h], i)]), Some(ca.hash[h][i]))
  }

  /** What `cache_put` stores for `now`. */
  function Stored(ca: Cache, was: Option<Page>, now: Page): (r: Page)
    requires FullText(now) && (was.Some? ==> FullText(was.value))
    ensures FullText(r) && KeyOf(r) == KeyOf(now)
  {
    if was.Some? && ca.erc then Merge(was.value, now) else now
  }

  /** `cache_put` */
  function Put(ca: Cache, p: Page): Result
    requires Inv(ca) && Cacheable(p)
  {
    var h := Hash(p.pgno);
    var list := ca.hash[h];
    var i := FindKey(list, KeyOf(p), 0);
    if i < |list| then
      assert GoodList(ca, h);
      var q := Stored(ca, Some(list[i]), p);
      Result(ca.(hash := ca.hash[h := [q] + Without(list, i)]), Some(q))
    else
      var hi := if p.subno >= ca.hi[p.pgno] then ca.hi[p.pgno := p.subno + 1] else ca.hi;
      Result(Cache(ca.hash[h := [p] + list], ca.erc, ca.npages + 1, hi), Some(p))
  }

  /** `cache_reset` */
  function Reset(ca: Cache): Cache
    requires Shaped(ca)
  {
    var hash := seq(HASH_SIZE, h requires 0 <= h < HASH_SIZE => Help(ca.hash[h]));
    Cache(hash, ca.erc, ca.npages - (Total(ca.hash) - Total(hash)),
          seq(LAST_PAGE + 1, p requires 0 <= p <= LAST_PAGE => if p < 0x900 then 0 else ca.hi[p]))
  }

  /* ---- The invariant is kept ---- */

  lemma EmptyInv()
    ensures Inv(Empty())
  {
    TotalEmpty(Empty().hash);
  }

  lemma {:induction false} TotalEmpty(hash: seq<seq<Page>>)
    requires forall h :: 0 <= h < |hash| ==> hash[h] == []
    ensures Total(hash) == 0
  {
    if hash != [] { TotalEmpty(hash[..|hash| - 1]); }
  }

  lemma {:induction false} TotalUpdate(hash: seq<seq<Page>>, h: nat, list: seq<Page>)
    requires h < |hash|
    ensures Total(hash[h := list]) == Total(hash) - |hash[h]| + |list|
  {
    var n := |hash| - 1;
    if h < n {
      TotalUpdate(hash[..n], h, list);
      assert hash[h := list][..n] == hash[..n][h := list];
    } else {
      assert hash[h := list][..n] == hash[..n];
    }
  }

  /** Bucket `Hash(q.pgno)` has become `q` in front of what it was without its page `i`. */
  ghost predicate Fronted(ca: Cache, da: Cache, i: nat, q: Page) {
    && Shaped(ca) && Shaped(da) && Cacheable(q)
    && var h := Hash(q.pgno);
       && i <= |ca.hash[h]|
       && da.hash == ca.hash[h := [q] + Without(ca.hash[h], i)]
       && da.npages == ca.npages + (if i < |ca.hash[h]| then 0 else 1)
       && da.hi == (if q.subno >= ca.hi[q.pgno] then ca.hi[q.pgno := q.subno + 1] else ca.hi)
       && (if i < |ca.hash[h]| then KeyOf(ca.hash[h][i]) == KeyOf(q) else !Has(ca, KeyOf(q)))
  }

  lemma WithoutAt(list: seq<Page>, i: nat, k: nat)
    requires i <= |list| && k < |Without(list, i)|
    ensures Without(list, i)[k] == list[if k < i then k else k + 1]
  {
  }

  /** Where page `k` is after page `i` moved to the front. */
  function Moved(i: nat, k: nat): nat { if k == i then 0 else if k < i then k + 1 else k }

  lemma FrontedAt(list: seq<Page>, i: nat, q: Page, k: nat)
    requires i <= |list| && k < |list| && k != i
    ensures Moved(i, k) < |[q] + Without(list, i)| && ([q] + Without(list, i))[Moved(i, k)] == list[k]
  {
    WithoutAt(list, i, Moved(i, k) - 1);
  }

  lemma FrontedHas(ca: Cache, da: Cache, i: nat, q: Page, key: Key)
    requires Fronted(ca, da, i, q) && Has(ca, key)
    ensures Has(da, key)
  {
    var h := Hash(key.0);
    var k :| 0 <= k < |ca.hash[h]| && KeyOf(ca.hash[h][k]) == key;
    if h == Hash(q.pgno) {
      if k == i { assert KeyOf(da.hash[h][0]) == key; } else { FrontedAt(ca.hash[h], i, q, k); }
    }
  }

  lemma FrontDistinct(list: seq<Page>, i: nat, q: Page)
    requires Distinct(list) && i <= |list|
    requires forall k :: 0 <= k < |list| && k != i ==> KeyOf(list[k]) != KeyOf(q)
    ensures Distinct([q] + Without(list, i))
  {
    var rest := Without(list, i);
    forall k | 0 <= k < |rest| ensures KeyOf(rest[k]) != KeyOf(q) { WithoutAt(list, i, k); }
    forall j, k | 0 <= j < k < |rest| ensures KeyOf(rest[j]) != KeyOf(rest[k]) {
      WithoutAt(list, i, j);
      WithoutAt(list, i, k);
    }
  }

  lemma FrontedList(ca: Cache, da: Cache, i: nat, q: Page)
    requires Inv(ca) && Fronted(ca, da, i, q)
    ensures GoodList(da, Hash(q.pgno))
  {
    var h := Hash(q.pgno);
    var list, more := ca.hash[h], da.hash[h];
    assert GoodList(ca, h);
    FrontDistinct(list, i, q);
    forall k | 0 <= k < |more| ensures var p := more[k]; Cacheable(p) && Hash(p.pgno) == h && p.subno < da.hi[p.pgno] {
      if k > 0 { WithoutAt(list, i, k - 1); }
    }
  }

  lemma FrontedExact(ca: Cache, da: Cache, i: nat, q: Page, p: int)
    requires Inv(ca) && Fronted(ca, da, i, q) && 0 <= p <= LAST_PAGE
    ensures Exact(da, p)
  {
    assert Exact(ca, p);
    if p == q.pgno && da.hi[p] == q.subno + 1 {
      assert KeyOf(da.hash[Hash(p)][0]) == (p, da.hi[p] - 1);
    } else if ca.hi[p] > 0 {
      FrontedHas(ca, da, i, q, (p, ca.hi[p] - 1));
    }
  }

  lemma FrontedInv(ca: Cache, da: Cache, i: nat, q: Page)
    requires Inv(ca) && Fronted(ca, da, i, q)
    ensures Inv(da)
  {
    var h := Hash(q.pgno);
    TotalUpdate(ca.hash, h, da.hash[h]);
    FrontedList(ca, da, i, q);
    forall k | 0 <= k < HASH_SIZE ensures GoodList(da, k) {
      assert GoodList(ca, k);
    }
    forall p | 0 <= p <= LAST_PAGE ensures Exact(da, p) { FrontedExact(ca, da, i, q, p); }
  }

  lemma GetFronts(ca: Cache, pgno: int, subno: int)
    requires Inv(ca) && Get(ca, pgno, subno).page.Some?
    ensures var r := Get(ca, pgno, subno); Fronted(ca, r.ca, Find(ca.hash[Hash(pgno)], pgno, subno, 0), r.page.value)
  {
    assert GoodList(ca, Hash(pgno));
  }

  lemma PutFronts(ca: Cache, p: Page)
    requires Inv(ca) && Cacheable(p)
    ensures var r := Put(ca, p);
      && r.page.Some? && KeyOf(r.page.value) == KeyOf(p)
      && Fronted(ca, r.ca, FindKey(ca.hash[Hash(p.pgno)], KeyOf(p), 0), r.page.value)
  {
    var h := Hash(p.pgno);
    assert GoodList(ca, h);
    var list := ca.hash[h];
    var i := FindKey(list, KeyOf(p), 0);
    if i < |list| {
      var q := Stored(ca, Some(list[i]), p);
      assert list[i].subno < ca.hi[p.pgno];
      PutKnown(ca, p, i, q);
    }
  }

  lemma PutKnown(ca: Cache, p: Page, i: nat, q: Page)
    requires Shaped(ca) && Cacheable(p) && i < |ca.hash[Hash(p.pgno)]| && p.subno < ca.hi[p.pgno]
    requires KeyOf(ca.hash[Hash(p.pgno)][i]) == KeyOf(p) == KeyOf(q) && FullText(q)
    ensures Fronted(ca, ca.(hash := ca.hash[Hash(p.pgno) := [q] + Without(ca.hash[Hash(p.pgno)], i)]), i, q)
  {
  }

  /** Every operation keeps the invariant. */
  lemma GetInv(ca: Cache, pgno: int, subno: int)
    requires Inv(ca)
    ensures Inv(Get(ca, pgno, subno).ca)
  {
    var r := Get(ca, pgno, subno);
    if r.page.Some? {
      GetFronts(ca, pgno, subno);
      FrontedInv(ca, r.ca, Find(ca.hash[Hash(pgno)], pgno, subno, 0), r.page.value);
    }
  }

  lemma PutInv(ca: Cache, p: Page)
    requires Inv(ca) && Cacheable(p)
    ensures Inv(Put(ca, p).ca)
  {
    PutFronts(ca, p);
    FrontedInv(ca, Put(ca, p).ca, FindKey(ca.hash[Hash(p.pgno)], KeyOf(p), 0), Put(ca, p).page.value);
  }

  lemma {:induction false} HelpKeeps(list: seq<Page>)
    ensures |Help(list)| <= |list|
    ensures forall p :: p in Help(list) <==> p in list && p.pgno / 256 == 9
    ensures Distinct(list) ==> Distinct(Help(list))
  {
    if list != [] {
      HelpKeeps(list[1..]);
      if Distinct(list) {
        assert Distinct(list[1..]);
        forall p | p in Help(list[1..]) ensures KeyOf(p) != KeyOf(list[0]) {
          var k :| 0 <= k < |list[1..]| && list[1..][k] == p;
          assert list[k + 1] == p;
        }
      }
    }
  }

  lemma ResetInv(ca: Cache)
    requires Inv(ca)
    ensures Inv(Reset(ca))
  {
    var da := Reset(ca);
    forall h | 0 <= h < HASH_SIZE ensures GoodList(da, h) {
      assert GoodList(ca, h);
      HelpKeeps(ca.hash[h]);
      assert forall i :: 0 <= i < |da.hash[h]| ==> da.hash[h][i] in ca.hash[h];
    }
    forall p | 0 <= p <= LAST_PAGE && da.hi[p] > 0 ensures Exact(da, p) {
      var h := Hash(p);
      assert Exact(ca, p);
      var k :| 0 <= k < |ca.hash[h]| && KeyOf(ca.hash[h][k]) == (p, ca.hi[p] - 1);
      HelpKeeps(ca.hash[h]);
      assert ca.hash[h][k] in da.hash[h];
    }
  }
}
