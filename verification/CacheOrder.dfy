/** The order of a walk over the cached pages, told by page and subpage numbers alone: it offers the cached pages from
 *  the place asked for on, round all of them, and takes the nearest one that will do. */
module CacheOrder {
  import opened Common
  import opened PageCache
  import opened CacheWalk
  import CacheModel

  /* ---- Places ---- */

  /** By page number, and by subpage number within a page. */
  predicate Lower(a: Key, b: Key) { a.0 < b.0 || (a.0 == b.0 && a.1 < b.1) }

  /** `k` lies in direction `dir` of the place. */
  predicate Ahead(place: Key, k: Key, dir: int) { if dir > 0 then Lower(place, k) else Lower(k, place) }

  /** Going from the place in direction `dir`, and round at the end, one comes to `a` before `b`; what is at the place
   *  itself comes last. */
  predicate Nearer(place: Key, dir: int, a: Key, b: Key) {
    if Ahead(place, a, dir) == Ahead(place, b, dir) then Ahead(a, b, dir) else Ahead(place, a, dir)
  }

  /** No subpage of the page lies as far up as right below `s`. */
  ghost predicate Above(ca: Cache, p: int, s: int)
    requires Shaped(ca)
  {
    forall v: Page :: Cached(ca, v) && v.pgno == p ==> v.subno < s - 1
  }

  /** Where a walk begins: for the wildcard at the newest subpage of the page; otherwise at the subpage asked for, cached
   *  or not.  A number off the range is as if behind the page in the direction of the walk. */
  ghost function Place(ca: Cache, pgno: int, subno: int, dir: int): Key
    requires Shaped(ca) && FIRST_PAGE <= pgno <= LAST_PAGE
  {
    if subno == ANY_SUB then
      match Lookup(ca, pgno, ANY_SUB)
      case Some(v) => KeyOf(v)
      case None => (pgno, 0)
    else if dir > 0 && subno < -1 then (pgno, ca.hi[pgno])
    else if dir < 0 && Above(ca, pgno, subno) then (pgno, 0)
    else (pgno, subno)
  }

  /* ---- Ranks ---- */

  /** Places by rank: `first` is the rank a walk from subpage `s` of page `p` heads for. */
  lemma NearerIsSteps(hi: seq<int>, p: int, s: int, dir: int, place: Key, a: Key, b: Key)
    requires Sides(hi) && FIRST_PAGE <= p <= LAST_PAGE && (dir == 1 || dir == -1)
    requires Position(hi, a.0, a.1) && Position(hi, b.0, b.1)
    requires place.0 == p && Aims(hi, p, s, dir, place.1)
    ensures var first, t := Goal(hi, p, s + dir, dir), Positions(hi);
      Nearer(place, dir, a, b) <==> Steps(first, dir, Rank(hi, a.0, a.1), t) < Steps(first, dir, Rank(hi, b.0, b.1), t)
  {
    AheadByRank(hi, p, s, dir, place, a);
    AheadByRank(hi, p, s, dir, place, b);
    LowerByRank(hi, a, b);
    LowerByRank(hi, b, a);
    RankBounded(hi, a.0, a.1);
    RankBounded(hi, b.0, b.1);
    GoalBounded(hi, p, s + dir, dir);
    hide Rank, Goal, Positions, Lower;
  }

  /** From subpage `s` of page `p` a walk goes on as from `u`. */
  predicate Aims(hi: seq<int>, p: int, s: int, dir: int, u: int)
    requires |hi| == LAST_PAGE + 1 && FIRST_PAGE <= p <= LAST_PAGE
  {
    if dir > 0 then if s < -1 || s >= hi[p] then u >= hi[p] - 1 else u == s
    else if s > hi[p] || s < 0 then u <= 0 else u == s
  }

  lemma LowerByRank(hi: seq<int>, a: Key, b: Key)
    requires Sides(hi) && Position(hi, a.0, a.1) && Position(hi, b.0, b.1)
    ensures Lower(a, b) <==> Rank(hi, a.0, a.1) < Rank(hi, b.0, b.1)
  {
    if a.0 < b.0 { BeforeMonotone(hi, a.0, b.0); } else if b.0 < a.0 { BeforeMonotone(hi, b.0, a.0); }
  }

  /** What is ahead is on this side of the end of the ranks. */
  lemma AheadByRank(hi: seq<int>, p: int, s: int, dir: int, place: Key, a: Key)
    requires Sides(hi) && FIRST_PAGE <= p <= LAST_PAGE && (dir == 1 || dir == -1) && Position(hi, a.0, a.1)
    requires place.0 == p && Aims(hi, p, s, dir, place.1)
    ensures var first, t, k := Goal(hi, p, s + dir, dir), Positions(hi), Rank(hi, a.0, a.1);
      if dir > 0 then Ahead(place, a, dir) <==> k >= first && !Wrapped(hi, p, s, dir)
      else Ahead(place, a, dir) <==> k <= first && !Wrapped(hi, p, s, dir)
    ensures var first, t := Goal(hi, p, s + dir, dir), Positions(hi);
      Wrapped(hi, p, s, dir) ==> first == if dir > 0 then 0 else t - 1
  {
    BeforeMonotone(hi, p, |hi|);
    RankBounded(hi, a.0, a.1);
    if a.0 < p { BeforeMonotone(hi, a.0, p); } else if p < a.0 { BeforeMonotone(hi, p, a.0); }
  }

  /** The walk heads for the other end at once. */
  ghost predicate Wrapped(hi: seq<int>, p: int, s: int, dir: int)
    requires Sides(hi) && FIRST_PAGE <= p <= LAST_PAGE
  {
    !Position(hi, p, s + dir) && if dir > 0 then Before(hi, p) + hi[p] == Positions(hi) else Before(hi, p) == 0
  }

  lemma AboveAll(ca: Cache, p: int, s: int)
    requires Inv(ca) && FIRST_PAGE <= p <= LAST_PAGE
    ensures (ca.hi[p] == 0 || s > ca.hi[p]) <==> Above(ca, p, s) || ca.hi[p] == 0
    ensures ca.hi[p] == 0 ==> Above(ca, p, s)
  {
    assert Exact(ca, p);
    forall v: Page | Cached(ca, v) && v.pgno == p ensures 0 <= v.subno < ca.hi[p] { CachedHasPosition(ca, v); }
    var list := ca.hash[Hash(p)];
    if ca.hi[p] > 0 {
      var i :| 0 <= i < |list| && KeyOf(list[i]) == (p, ca.hi[p] - 1);
      assert Cached(ca, list[i]);
    }
  }

  lemma NoSubpage(ca: Cache, p: int)
    requires Inv(ca) && FIRST_PAGE <= p <= LAST_PAGE && Lookup(ca, p, ANY_SUB).None?
    ensures ca.hi[p] == 0
  {
    assert Exact(ca, p);
  }

  lemma StartAims(ca: Cache, pgno: int, subno: int, dir: int)
    requires Inv(ca) && FIRST_PAGE <= pgno <= LAST_PAGE && (dir == 1 || dir == -1)
    ensures Place(ca, pgno, subno, dir).0 == pgno
    ensures Sides(ca.hi) && Aims(ca.hi, pgno, StartSub(ca, pgno, subno, dir), dir, Place(ca, pgno, subno, dir).1)
  {
    assert Exact(ca, pgno);
    AboveAll(ca, pgno, subno);
    var found := Lookup(ca, pgno, subno);
    if subno != ANY_SUB {
      LookupExact(ca, pgno, subno);
    } else if found.Some? {
      assert Cached(ca, found.value) && found.value.pgno == pgno;
      CachedHasPosition(ca, found.value);
    } else {
      NoSubpage(ca, pgno);
    }
  }

  /* ---- The walk ---- */

  /** The page is cached and the callback wants it. */
  ghost predicate Wanted(ca: Cache, func: Page -> bool, v: Page)
    requires Shaped(ca)
  {
    Cached(ca, v) && func(v)
  }

  /** The pages offered are the nearest ones to the place, the nearest first: none is left out and none comes twice. */
  ghost predicate FromNearest(ca: Cache, place: Key, dir: int, offered: seq<Page>)
    requires Shaped(ca)
  {
    && (forall v :: v in offered ==> Cached(ca, v))
    && (forall i, k :: 0 <= i < k < |offered| ==> Nearer(place, dir, KeyOf(offered[i]), KeyOf(offered[k])))
    && forall u: Page, k :: Cached(ca, u) && 0 <= k < |offered| && Nearer(place, dir, KeyOf(u), KeyOf(offered[k])) ==> u in offered
  }

  lemma NearerMeansSooner(ca: Cache, pgno: int, subno: int, dir: int, u: Page, v: Page)
    requires Inv(ca) && FIRST_PAGE <= pgno <= LAST_PAGE && (dir == 1 || dir == -1) && Cached(ca, u) && Cached(ca, v)
    ensures var first := FirstRank(ca, pgno, subno, dir);
      Nearer(Place(ca, pgno, subno, dir), dir, KeyOf(u), KeyOf(v)) <==> StepsTo(ca, first, dir, u) < StepsTo(ca, first, dir, v)
  {
    StartAims(ca, pgno, subno, dir);
    CachedHasPosition(ca, u);
    CachedHasPosition(ca, v);
    NearerIsSteps(ca.hi, pgno, StartSub(ca, pgno, subno, dir), dir, Place(ca, pgno, subno, dir), KeyOf(u), KeyOf(v));
  }

  /** Different cached pages are not equally near. */
  lemma NearerTotal(ca: Cache, place: Key, dir: int, u: Page, v: Page)
    requires Inv(ca) && Cached(ca, u) && Cached(ca, v) && u != v
    ensures Nearer(place, dir, KeyOf(u), KeyOf(v)) <==> !Nearer(place, dir, KeyOf(v), KeyOf(u))
  {
    assert GoodList(ca, Hash(u.pgno));
    var list := ca.hash[Hash(u.pgno)];
    assert KeyOf(u) != KeyOf(v);
  }

  lemma EndedNearest(ca: Cache, pgno: int, subno: int, dir: int, func: Page -> bool, r: Option<Page>, offered: seq<Page>, n: int)
    requires Inv(ca) && FIRST_PAGE <= pgno <= LAST_PAGE && (dir == 1 || dir == -1)
    requires Ended(ca, FirstRank(ca, pgno, subno, dir), dir, func, r, offered, n)
    ensures FromNearest(ca, Place(ca, pgno, subno, dir), dir, offered)
    ensures r.Some? ==> forall u: Page :: Wanted(ca, func, u) && u != r.value ==>
      Nearer(Place(ca, pgno, subno, dir), dir, KeyOf(r.value), KeyOf(u))
  {
    var first, place := FirstRank(ca, pgno, subno, dir), Place(ca, pgno, subno, dir);
    hide FirstRank, Place, Nearer, StepsTo;
    forall i, k | 0 <= i < k < |offered| ensures Nearer(place, dir, KeyOf(offered[i]), KeyOf(offered[k])) {
      NearerMeansSooner(ca, pgno, subno, dir, offered[i], offered[k]);
    }
    forall u: Page, k | Cached(ca, u) && 0 <= k < |offered| && Nearer(place, dir, KeyOf(u), KeyOf(offered[k]))
      ensures u in offered
    {
      NearerMeansSooner(ca, pgno, subno, dir, u, offered[k]);
    }
    if r.Some? {
      forall u: Page | Wanted(ca, func, u) && u != r.value ensures Nearer(place, dir, KeyOf(r.value), KeyOf(u)) {
        NearerTotal(ca, place, dir, u, r.value);
        assert offered[|offered| - 1] == r.value;
      }
    }
  }

  /** From the place asked for a walk offers the cached pages one by one, the nearest first, and returns the nearest one
   *  that the callback wants, as soon as it comes to it; it returns null when there is none. */
  lemma ForeachNearest(ca: Cache, pgno: int, subno: int, dir: int, func: Page -> bool)
    requires Inv(ca) && FIRST_PAGE <= pgno <= LAST_PAGE && (dir == 1 || dir == -1) && WildcardsNewest(ca)
    ensures var (r, offered, n) := Foreach(ca, pgno, subno, dir, func);
      var place := Place(ca, pgno, subno, dir);
      && FromNearest(ca, place, dir, offered)
      && (forall k :: 0 <= k < |offered| - 1 ==> !func(offered[k]))
      && (r.None? ==> forall u: Page :: Cached(ca, u) ==> u in offered && !func(u))
      && (r.Some? ==>
            && Wanted(ca, func, r.value) && offered != [] && offered[|offered| - 1] == r.value
            && forall u: Page :: Wanted(ca, func, u) && u != r.value ==> Nearer(place, dir, KeyOf(r.value), KeyOf(u)))
  {
    var (r, offered, n) := Foreach(ca, pgno, subno, dir, func);
    ForeachRight(ca, pgno, subno, dir, func);
    EndedNearest(ca, pgno, subno, dir, func, r, offered, n);
  }

  /** A walk that begins at a cached page offers that page last: it is returned only if no other cached page is wanted. */
  lemma StoodOnComesLast(ca: Cache, pgno: int, subno: int, dir: int, func: Page -> bool, v: Page)
    requires Inv(ca) && FIRST_PAGE <= pgno <= LAST_PAGE && (dir == 1 || dir == -1) && WildcardsNewest(ca)
    requires Cached(ca, v) && KeyOf(v) == Place(ca, pgno, subno, dir)
    ensures Foreach(ca, pgno, subno, dir, func).0 == Some(v) <==>
      func(v) && forall u: Page :: Cached(ca, u) && u != v ==> !func(u)
  {
    ForeachNearest(ca, pgno, subno, dir, func);
    var r := Foreach(ca, pgno, subno, dir, func).0;
    var place := KeyOf(v);
    forall u: Page | Cached(ca, u) && u != v ensures Nearer(place, dir, KeyOf(u), place) {
      NearerTotal(ca, place, dir, u, v);
    }
    if r.Some? && r.value != v && func(v) { assert Wanted(ca, func, v); }
    if u: Page :| Cached(ca, u) && u != v && func(u) { assert Wanted(ca, func, u); }
  }

  /** Where no subpage lies as far up as the one asked for, a walk downwards goes on to the next lower page at once: it
   *  returns a subpage of this page only if no other page is wanted. */
  lemma AboveSkipsPage(ca: Cache, pgno: int, subno: int, func: Page -> bool)
    requires Inv(ca) && FIRST_PAGE <= pgno <= LAST_PAGE && WildcardsNewest(ca) && subno != ANY_SUB && Above(ca, pgno, subno)
    ensures var r := Foreach(ca, pgno, subno, -1, func).0;
      r.Some? && r.value.pgno == pgno ==> forall u: Page :: Wanted(ca, func, u) ==> u.pgno == pgno
  {
    ForeachNearest(ca, pgno, subno, -1, func);
    forall v: Page | Cached(ca, v) ensures 0 <= v.subno { CachedHasPosition(ca, v); }
  }

  /** On the map: with the wildcard a walk begins at the subpage that was put or got last. */
  lemma BeginsAtNewest(ca: Cache, m: CacheModel.Model, pgno: int, dir: int)
    requires CacheModel.Represents(ca, m) && FIRST_PAGE <= pgno <= LAST_PAGE && pgno in m.newest
    ensures Place(ca, pgno, ANY_SUB, dir) == (pgno, m.newest[pgno])
  {
  }
}
