/** The cyclic walk over the cached pages (`cache_foreach_pg`).
 *
 *  The side table gives every page number `p` the subpage positions 0 up to `hi[p]`.  Counting the positions of
 *  0x100, then those of 0x101, and so on gives each a rank; the walk goes round the ranks one by one.
 */
module CacheWalk {
  import opened Common
  import opened PageCache

  /** The number of positions of the pages from 0x100 up to, but not including, `p`. */
  ghost function Before(hi: seq<int>, p: int): nat
    requires |hi| == LAST_PAGE + 1 && FIRST_PAGE <= p <= LAST_PAGE + 1
    requires forall q :: 0 <= q <= LAST_PAGE ==> hi[q] >= 0
    decreases p
  {
    if p == FIRST_PAGE then 0 else Before(hi, p - 1) + hi[p - 1]
  }

  ghost predicate Sides(hi: seq<int>) {
    |hi| == LAST_PAGE + 1 && forall q :: 0 <= q <= LAST_PAGE ==> hi[q] >= 0
  }

  predicate Position(hi: seq<int>, p: int, s: int) {
    |hi| == LAST_PAGE + 1 && FIRST_PAGE <= p <= LAST_PAGE && 0 <= s < hi[p]
  }

  ghost function Rank(hi: seq<int>, p: int, s: int): nat
    requires Sides(hi) && Position(hi, p, s)
  {
    Before(hi, p) + s
  }

  /** The number of positions. */
  ghost function Positions(hi: seq<int>): nat
    requires Sides(hi)
  {
    Before(hi, |hi|)
  }

  lemma {:induction false} BeforeMonotone(hi: seq<int>, p: int, q: int)
    requires Sides(hi) && FIRST_PAGE <= p <= q <= LAST_PAGE + 1
    ensures Before(hi, p) <= Before(hi, q)
    ensures p < q ==> Before(hi, p) + hi[p] <= Before(hi, q)
    decreases q - p
  {
    if p < q { BeforeMonotone(hi, p, q - 1); }
  }

  lemma RankBounded(hi: seq<int>, p: int, s: int)
    requires Sides(hi) && Position(hi, p, s)
    ensures Rank(hi, p, s) < Positions(hi)
  {
    BeforeMonotone(hi, p, |hi|);
  }

  /** Different positions have different ranks. */
  lemma RankInjective(hi: seq<int>, p: int, s: int, q: int, t: int)
    requires Sides(hi) && Position(hi, p, s) && Position(hi, q, t) && Rank(hi, p, s) == Rank(hi, q, t)
    ensures p == q && s == t
  {
    if p < q { BeforeMonotone(hi, p, q); } else if q < p { BeforeMonotone(hi, q, p); }
  }

  /** Some page of the range has a position. */
  lemma {:induction false} SomePosition(hi: seq<int>, p: int) returns (q: int)
    requires Sides(hi) && FIRST_PAGE <= p <= LAST_PAGE + 1 && Before(hi, p) > 0
    ensures FIRST_PAGE <= q < p && hi[q] > 0
    decreases p
  {
    if hi[p - 1] > 0 { q := p - 1; } else { q := SomePosition(hi, p - 1); }
  }

  /* ---- One step ---- */

  /** `r` brought into 0..t, when it is off by at most one round. */
  function Wrap(r: int, t: int): int {
    if r >= t then r - t else if r < 0 then r + t else r
  }

  /** The page after `p`, round the range. */
  function Turn(p: int, dir: int): int {
    if p + dir < FIRST_PAGE then LAST_PAGE else if p + dir > LAST_PAGE then FIRST_PAGE else p + dir
  }

  /** The rank the walk is heading for when it stands at `p`, `s`. */
  ghost function Goal(hi: seq<int>, p: int, s: int, dir: int): int
    requires Sides(hi) && FIRST_PAGE <= p <= LAST_PAGE
  {
    if Position(hi, p, s) then Before(hi, p) + s
    else Wrap(if dir > 0 then Before(hi, p) + hi[p] else Before(hi, p) - 1, Positions(hi))
  }

  /** Turning to the next page does not change the goal. */
  lemma TurnKeepsGoal(hi: seq<int>, p: int, s: int, dir: int)
    requires Sides(hi) && Positions(hi) > 0 && (dir == 1 || dir == -1)
    requires FIRST_PAGE <= p <= LAST_PAGE && !Position(hi, p, s)
    ensures var q := Turn(p, dir);
      Goal(hi, q, if dir < 0 then hi[q] - 1 else 0, dir) == Goal(hi, p, s, dir)
  {
    var q := Turn(p, dir);
    BeforeMonotone(hi, p, |hi|);
    BeforeMonotone(hi, q, |hi|);
  }

  /** How many pages on in direction `dir` the page `q` is. */
  function Distance(p: int, q: int, dir: int): int {
    if dir > 0 then if q >= p then q - p else q - p + 0x900
    else if p >= q then p - q else p - q + 0x900
  }

  /** The skipping loop makes progress towards any page `q` with positions. */
  function Skips(hi: seq<int>, p: int, s: int, dir: int, q: int): int {
    if p == q && !Position(hi, p, s) then 0x900 else Distance(p, q, dir)
  }

  /** Where the walk's subpage number starts. */
  function StartSub(ca: Cache, pgno: int, subno: int, dir: int): int
    requires Shaped(ca)
  {
    var found := Lookup(ca, pgno, subno);
    if found.Some? then found.value.subno
    else if subno == ANY_SUB then if dir < 0 then 0 else 0xffff
    else subno
  }

  lemma GoalBounded(hi: seq<int>, p: int, s: int, dir: int)
    requires Sides(hi) && FIRST_PAGE <= p <= LAST_PAGE && Positions(hi) > 0
    ensures 0 <= Goal(hi, p, s, dir) < Positions(hi)
  {
    BeforeMonotone(hi, p, |hi|);
  }

  /* ---- Rounds ---- */

  /** The rank after `i` steps of a walk that began at rank `r`, for less than two rounds. */
  function Round(r: int, dir: int, i: int, t: int): int {
    var v := if dir > 0 then r + i else r - i;
    if v < -t then v + 2 * t else if v < 0 then v + t else if v >= 2 * t then v - 2 * t else if v >= t then v - t else v
  }

  /** The number of steps from rank `r` to rank `k`. */
  function Steps(r: int, dir: int, k: int, t: int): int {
    if dir > 0 then if k >= r then k - r else k - r + t
    else if r >= k then r - k else r - k + t
  }

  lemma RoundInverse(r: int, dir: int, i: int, k: int, t: int)
    requires 0 <= r < t && 0 <= k < t && 0 <= i < 2 * t && (dir == 1 || dir == -1)
    ensures Round(r, dir, i, t) == k <==> i == Steps(r, dir, k, t) || i == Steps(r, dir, k, t) + t
    ensures 0 <= Steps(r, dir, k, t) < t && 0 <= Round(r, dir, i, t) < t
  {
  }

  lemma RoundNext(r: int, dir: int, i: int, t: int)
    requires 0 <= r < t && 0 <= i < 2 * t && (dir == 1 || dir == -1)
    ensures i + 1 < 2 * t ==> Round(r, dir, i + 1, t) == Wrap(Round(r, dir, i, t) + dir, t)
  {
  }

  /** A step inside the positions heads for the next rank. */
  lemma StepGoal(hi: seq<int>, p: int, s: int, dir: int)
    requires Sides(hi) && Position(hi, p, s) && (dir == 1 || dir == -1)
    ensures Goal(hi, p, s + dir, dir) == Wrap(Rank(hi, p, s) + dir, Positions(hi))
  {
    RankBounded(hi, p, s);
    if Position(hi, p, s + dir) { RankBounded(hi, p, s + dir); }
  }

  /* ---- Cached pages ---- */

  ghost predicate Cached(ca: Cache, v: Page)
    requires Shaped(ca)
  {
    v in ca.hash[Hash(v.pgno)]
  }

  /** Below the wildcard, a lookup finds exactly the page with the key. */
  lemma LookupExact(ca: Cache, p: int, s: int)
    requires Inv(ca) && s != ANY_SUB
    ensures Lookup(ca, p, s).Some? ==> KeyOf(Lookup(ca, p, s).value) == (p, s) && Cached(ca, Lookup(ca, p, s).value)
    ensures forall v: Page :: Cached(ca, v) && KeyOf(v) == (p, s) ==> Lookup(ca, p, s) == Some(v)
  {
    var list := ca.hash[Hash(p)];
    assert GoodList(ca, Hash(p));
    forall v: Page | Cached(ca, v) && KeyOf(v) == (p, s) ensures Lookup(ca, p, s) == Some(v) {
      var k :| 0 <= k < |list| && list[k] == v;
      assert Matches(list[k], p, s);
    }
  }

  /** The walk comes to the position of the wildcard on pages that have that many positions.  What it must find
   *  there is the subpage with that number, but it finds the newest one. */
  ghost predicate WildcardsNewest(ca: Cache)
    requires Shaped(ca)
  {
    forall p :: FIRST_PAGE <= p <= LAST_PAGE && ca.hi[p] > ANY_SUB ==> NewestIs(ca, p, ANY_SUB)
  }

  ghost predicate NewestIs(ca: Cache, p: int, s: int)
    requires Shaped(ca)
  {
    Lookup(ca, p, ANY_SUB).Some? && Lookup(ca, p, ANY_SUB).value.subno == s
  }

  /** With that, a lookup at any position finds exactly the page with the key. */
  lemma PositionExact(ca: Cache, p: int, s: int)
    requires Inv(ca) && WildcardsNewest(ca) && Position(ca.hi, p, s)
    ensures Lookup(ca, p, s).Some? ==> KeyOf(Lookup(ca, p, s).value) == (p, s) && Cached(ca, Lookup(ca, p, s).value)
    ensures forall v: Page :: Cached(ca, v) && KeyOf(v) == (p, s) ==> Lookup(ca, p, s) == Some(v)
  {
    if s != ANY_SUB {
      LookupExact(ca, p, s);
    } else {
      var list := ca.hash[Hash(p)];
      assert GoodList(ca, Hash(p));
      var w := Lookup(ca, p, s).value;
      assert NewestIs(ca, p, ANY_SUB);
      forall v: Page | Cached(ca, v) && KeyOf(v) == (p, s) ensures v == w {
        var k :| 0 <= k < |list| && list[k] == v;
        assert list[Find(list, p, s, 0)] == w;
      }
    }
  }

  /** Every cached page has a position. */
  lemma CachedHasPosition(ca: Cache, v: Page)
    requires Inv(ca) && Cached(ca, v)
    ensures Sides(ca.hi) && Position(ca.hi, v.pgno, v.subno)
  {
    assert GoodList(ca, Hash(v.pgno));
  }

  lemma {:induction false} SomePage(ca: Cache, hash: seq<seq<Page>>) returns (h: nat)
    requires Total(hash) > 0
    ensures h < |hash| && hash[h] != []
  {
    var n := |hash| - 1;
    if hash[n] != [] { h := n; } else { h := SomePage(ca, hash[..n]); }
  }

  lemma {:induction false} NoPages(hash: seq<seq<Page>>)
    requires Total(hash) == 0
    ensures forall h :: 0 <= h < |hash| ==> hash[h] == []
  {
    if hash != [] { NoPages(hash[..|hash| - 1]); }
  }

  /** A cache with a page has a position, so the walk can stand somewhere. */
  lemma NonEmptyHasPosition(ca: Cache) returns (v: Page)
    requires Inv(ca) && ca.npages != 0
    ensures Cached(ca, v) && Sides(ca.hi) && Positions(ca.hi) > 0
  {
    var h := SomePage(ca, ca.hash);
    v := ca.hash[h][0];
    assert GoodList(ca, h);
    assert v in ca.hash[h];
    CachedHasPosition(ca, v);
    RankBounded(ca.hi, v.pgno, v.subno);
  }

  /* ---- Without positions ---- */

  /** Where the skipping loop is after `n` rounds, if it does not stop. */
  function Skipped(hi: seq<int>, p: int, s: int, dir: int, n: nat): (int, int)
    requires |hi| == LAST_PAGE + 1 && FIRST_PAGE <= p <= LAST_PAGE && (dir == 1 || dir == -1)
    decreases n
  {
    if n == 0 then (p, s)
    else var q := Turn(p, dir); Skipped(hi, q, if dir < 0 then hi[q] - 1 else 0, dir, n - 1)
  }

  lemma {:induction false} SkippedReaches(hi: seq<int>, p: int, s: int, dir: int, q: int)
    requires Sides(hi) && FIRST_PAGE <= p <= LAST_PAGE && (dir == 1 || dir == -1)
    requires FIRST_PAGE <= q <= LAST_PAGE && hi[q] > 0
    ensures exists n: nat :: var x := Skipped(hi, p, s, dir, n); Position(hi, x.0, x.1)
    decreases Skips(hi, p, s, dir, q)
  {
    if Position(hi, p, s) {
      var x := Skipped(hi, p, s, dir, 0);
      assert Position(hi, x.0, x.1);
    } else {
      var r := Turn(p, dir);
      var t := if dir < 0 then hi[r] - 1 else 0;
      SkippedReaches(hi, r, t, dir, q);
      var n: nat :| var x := Skipped(hi, r, t, dir, n); Position(hi, x.0, x.1);
      assert Skipped(hi, p, s, dir, n + 1) == Skipped(hi, r, t, dir, n);
    }
  }

  /** The skipping loop ends, from wherever it starts outside the positions, exactly when some page from 0x100 to
   *  0x9ff has a position, which the index invariant gives for every cache with a page (`NonEmptyHasPosition`). */
  lemma SkippingEnds(hi: seq<int>, p: int, s: int, dir: int)
    requires Sides(hi) && FIRST_PAGE <= p <= LAST_PAGE && (dir == 1 || dir == -1) && !Position(hi, p, s)
    ensures (exists n: nat :: var x := Skipped(hi, p, s, dir, n); Position(hi, x.0, x.1))
      <==> (exists q :: FIRST_PAGE <= q <= LAST_PAGE && hi[q] > 0)
  {
    if q :| FIRST_PAGE <= q <= LAST_PAGE && hi[q] > 0 {
      SkippedReaches(hi, p, s, dir, q);
    }
  }

  /* ---- The walk ---- */

  /** The rank of the first position the walk comes to. */
  ghost function FirstRank(ca: Cache, pgno: int, subno: int, dir: int): int
    requires Inv(ca) && FIRST_PAGE <= pgno <= LAST_PAGE
  {
    Goal(ca.hi, pgno, StartSub(ca, pgno, subno, dir) + dir, dir)
  }

  /** The number of steps from rank `first` to a cached page. */
  ghost function StepsTo(ca: Cache, first: int, dir: int, v: Page): int
    requires Inv(ca) && Cached(ca, v)
  {
    CachedHasPosition(ca, v);
    Steps(first, dir, Rank(ca.hi, v.pgno, v.subno), Positions(ca.hi))
  }

  /** `offered` is in walk order, and holds exactly the cached pages less than `n` steps away. */
  ghost predicate InOrder(ca: Cache, first: int, dir: int, offered: seq<Page>, n: int)
    requires Inv(ca)
  {
    && (forall v :: v in offered ==> Cached(ca, v) && StepsTo(ca, first, dir, v) < n)
    && (forall a, b :: 0 <= a < b < |offered| ==> StepsTo(ca, first, dir, offered[a]) < StepsTo(ca, first, dir, offered[b]))
    && (forall v: Page :: Cached(ca, v) && StepsTo(ca, first, dir, v) < n ==> v in offered)
  }

  /** The walk stands at the cached page, or at no cached page, that is `i` steps away. */
  ghost predicate StandsAt(ca: Cache, first: int, dir: int, i: int, v: Option<Page>)
    requires Inv(ca)
  {
    && (v.Some? ==> Cached(ca, v.value) && StepsTo(ca, first, dir, v.value) == i)
    && (forall u: Page :: Cached(ca, u) && StepsTo(ca, first, dir, u) == i ==> v == Some(u))
  }

  /** A walk that starts at rank `first` of a cache with positions. */
  ghost predicate Starts(ca: Cache, first: int, dir: int) {
    Inv(ca) && 0 <= first < Positions(ca.hi) && (dir == 1 || dir == -1)
  }

  lemma StepsBounded(ca: Cache, first: int, dir: int, v: Page)
    requires Starts(ca, first, dir) && Cached(ca, v)
    ensures 0 <= StepsTo(ca, first, dir, v) < Positions(ca.hi)
  {
    CachedHasPosition(ca, v);
    RankBounded(ca.hi, v.pgno, v.subno);
  }

  /** The pages offered so far, and the one at which the walk stands. */
  lemma OfferedGrow(ca: Cache, first: int, dir: int, offered: seq<Page>, i: int, v: Option<Page>)
    requires Inv(ca) && InOrder(ca, first, dir, offered, i) && StandsAt(ca, first, dir, i, v)
    ensures InOrder(ca, first, dir, if v.Some? then offered + [v.value] else offered, i + 1)
  {
    if v.Some? {
      var more := offered + [v.value];
      forall a, b | 0 <= a < b < |more| ensures StepsTo(ca, first, dir, more[a]) < StepsTo(ca, first, dir, more[b]) {
        assert more[a] in offered;
      }
    }
  }

  /** After a whole round everything cached has been offered. */
  lemma RoundComplete(ca: Cache, first: int, dir: int, offered: seq<Page>, i: int)
    requires Starts(ca, first, dir) && InOrder(ca, first, dir, offered, i) && Positions(ca.hi) <= i
    ensures InOrder(ca, first, dir, offered, i + 1)
    ensures forall v: Page :: Cached(ca, v) ==> v in offered
  {
    forall v: Page | Cached(ca, v) ensures StepsTo(ca, first, dir, v) < i { StepsBounded(ca, first, dir, v); }
  }

  /** The walk is `i` steps on, less than two rounds, and has not met the first page it offered again. */
  ghost predicate Walking(ca: Cache, first: int, dir: int, offered: seq<Page>, i: int)
    requires Starts(ca, first, dir)
  {
    && InOrder(ca, first, dir, offered, i)
    && (offered == [] ==> i < Positions(ca.hi))
    && (offered != [] ==> offered[0] in offered && i <= StepsTo(ca, first, dir, offered[0]) + Positions(ca.hi))
  }

  /** What a step finds: the first page offered is met again, and then everything has been offered; or else the
   *  page met, if any, is to be offered next. */
  ghost predicate Onward(ca: Cache, first: int, dir: int, offered: seq<Page>, i: int, v: Option<Page>)
    requires Starts(ca, first, dir)
  {
    if v.Some? && offered != [] && v.value == offered[0] then forall u: Page :: Cached(ca, u) ==> u in offered
    else i + 1 < 2 * Positions(ca.hi) && Walking(ca, first, dir, if v.Some? then offered + [v.value] else offered, i + 1)
  }

  lemma FirstRound(ca: Cache, first: int, dir: int, offered: seq<Page>, i: int, v: Option<Page>)
    requires Starts(ca, first, dir) && ca.npages != 0
    requires 0 <= i < Positions(ca.hi) && Walking(ca, first, dir, offered, i) && StandsAt(ca, first, dir, i, v)
    ensures Onward(ca, first, dir, offered, i, v)
  {
    OfferedGrow(ca, first, dir, offered, i, v);
    var some := NonEmptyHasPosition(ca);
    StepsBounded(ca, first, dir, some);
    if v.Some? { StepsBounded(ca, first, dir, v.value); }
    if offered != [] { StepsBounded(ca, first, dir, offered[0]); }
    if v.None? && i + 1 == Positions(ca.hi) {
      assert some in offered;
    }
  }

  /** In the second round the walk meets nothing before the page it offered first. */
  lemma SecondRound(ca: Cache, first: int, dir: int, offered: seq<Page>, i: int, v: Option<Page>)
    requires Starts(ca, first, dir) && Positions(ca.hi) <= i && Walking(ca, first, dir, offered, i)
    requires StandsAt(ca, first, dir, i - Positions(ca.hi), v)
    ensures Onward(ca, first, dir, offered, i, v)
  {
    RoundComplete(ca, first, dir, offered, i);
    StepsBounded(ca, first, dir, offered[0]);
    if v.Some? {
      var k :| 0 <= k < |offered| && offered[k] == v.value;
      assert k == 0;
    } else {
      assert StepsTo(ca, first, dir, offered[0]) != i - Positions(ca.hi);
    }
  }

  /** What is cached at the position the walk has come to. */
  lemma Arrived(ca: Cache, first: int, dir: int, i: int, p: int, s: int)
    requires Starts(ca, first, dir) && 0 <= i < 2 * Positions(ca.hi) && WildcardsNewest(ca)
    requires Position(ca.hi, p, s) && Rank(ca.hi, p, s) == Round(first, dir, i, Positions(ca.hi))
    ensures StandsAt(ca, first, dir, if i < Positions(ca.hi) then i else i - Positions(ca.hi), Lookup(ca, p, s))
  {
    var t := Positions(ca.hi);
    var v := Lookup(ca, p, s);
    RankBounded(ca.hi, p, s);
    RoundInverse(first, dir, i, Rank(ca.hi, p, s), t);
    PositionExact(ca, p, s);
    forall u: Page | Cached(ca, u) && StepsTo(ca, first, dir, u) == (if i < t then i else i - t) ensures v == Some(u) {
      CachedHasPosition(ca, u);
      RankBounded(ca.hi, u.pgno, u.subno);
      RoundInverse(first, dir, i, Rank(ca.hi, u.pgno, u.subno), t);
      RankInjective(ca.hi, p, s, u.pgno, u.subno);
    }
  }

  /** How the walk ends: the pages offered are the first ones in walk order, only the last may be taken, and
   *  when none is taken all have been offered. */
  ghost predicate Ended(ca: Cache, first: int, dir: int, func: Page -> bool, r: Option<Page>, offered: seq<Page>, n: int)
    requires Inv(ca)
  {
    && InOrder(ca, first, dir, offered, n)
    && (forall k :: 0 <= k < |offered| - 1 ==> !func(offered[k]))
    && match r {
         case None => forall v: Page :: Cached(ca, v) ==> v in offered && !func(v)
         case Some(v) => Cached(ca, v) && func(v) && offered != [] && offered[|offered| - 1] == v
       }
  }

  /** The position of a rank. */
  ghost function PlaceFrom(hi: seq<int>, k: int, p: int): (x: (int, int))
    requires Sides(hi) && FIRST_PAGE <= p <= LAST_PAGE + 1 && Before(hi, p) <= k < Positions(hi)
    ensures Position(hi, x.0, x.1) && Rank(hi, x.0, x.1) == k
    decreases LAST_PAGE + 1 - p
  {
    if k < Before(hi, p + 1) then (p, k - Before(hi, p)) else PlaceFrom(hi, k, p + 1)
  }

  /** What a lookup finds at the position that is `i` steps away. */
  ghost function Met(ca: Cache, first: int, dir: int, i: int): Option<Page>
    requires Starts(ca, first, dir) && 0 <= i < 2 * Positions(ca.hi)
  {
    RoundInverse(first, dir, i, first, Positions(ca.hi));
    var x := PlaceFrom(ca.hi, Round(first, dir, i, Positions(ca.hi)), FIRST_PAGE);
    Lookup(ca, x.0, x.1)
  }

  /** The walk from its step `i` on: the page taken, the pages offered, and the number of steps.  It ends when it
   *  meets the page offered first again, which is before two rounds are over (`WalkEnds`). */
  ghost function Walk(ca: Cache, first: int, dir: int, func: Page -> bool, i: nat, offered: seq<Page>)
    : (Option<Page>, seq<Page>, int)
    requires Starts(ca, first, dir)
    decreases 2 * Positions(ca.hi) - i
  {
    if i >= 2 * Positions(ca.hi) then (None, offered, i)
    else
      var v := Met(ca, first, dir, i);
      if v.None? then Walk(ca, first, dir, func, i + 1, offered)
      else if offered != [] && offered[0] == v.value then (None, offered, i)
      else if func(v.value) then (v, offered + [v.value], i + 1)
      else Walk(ca, first, dir, func, i + 1, offered + [v.value])
  }

  /** After a round the same is found. */
  lemma MetAgain(ca: Cache, first: int, dir: int, i: int)
    requires Starts(ca, first, dir) && 0 <= i < Positions(ca.hi)
    ensures Met(ca, first, dir, i + Positions(ca.hi)) == Met(ca, first, dir, i)
  {
    var t := Positions(ca.hi);
    RoundInverse(first, dir, i, Round(first, dir, i, t), t);
    RoundInverse(first, dir, i + t, Round(first, dir, i, t), t);
  }

  /** The lookup the code makes is the one at the rank. */
  lemma MetHere(ca: Cache, first: int, dir: int, i: int, p: int, s: int)
    requires Starts(ca, first, dir) && 0 <= i < 2 * Positions(ca.hi)
    requires Position(ca.hi, p, s) && Rank(ca.hi, p, s) == Round(first, dir, i, Positions(ca.hi))
    ensures Met(ca, first, dir, i) == Lookup(ca, p, s)
  {
    var x := PlaceFrom(ca.hi, Round(first, dir, i, Positions(ca.hi)), FIRST_PAGE);
    RankInjective(ca.hi, p, s, x.0, x.1);
  }

  /** Standing at page `p` and subpage `s`, the walk makes its step `n` next. */
  ghost predicate Heading(ca: Cache, first: int, dir: int, n: int, p: int, s: int)
    requires Starts(ca, first, dir)
  {
    FIRST_PAGE <= p <= LAST_PAGE && 0 <= n < 2 * Positions(ca.hi)
    && Goal(ca.hi, p, s + dir, dir) == Round(first, dir, n, Positions(ca.hi))
  }

  /** Step `n`, from page `q` and subpage `u` to a position. */
  lemma Reached(ca: Cache, first: int, dir: int, n: int, q: int, u: int, p: int, s: int)
    requires Starts(ca, first, dir) && Heading(ca, first, dir, n, q, u)
    requires Position(ca.hi, p, s) && Rank(ca.hi, p, s) == Goal(ca.hi, q, u + dir, dir)
    ensures Met(ca, first, dir, n) == Lookup(ca, p, s)
    ensures n + 1 < 2 * Positions(ca.hi) ==> Heading(ca, first, dir, n + 1, p, s)
  {
    MetHere(ca, first, dir, n, p, s);
    RoundNext(first, dir, n, Positions(ca.hi));
    StepGoal(ca.hi, p, s, dir);
  }

  /** What is found is cached. */
  lemma MetCached(ca: Cache, first: int, dir: int, i: int)
    requires Starts(ca, first, dir) && 0 <= i < 2 * Positions(ca.hi)
    ensures Met(ca, first, dir, i).Some? ==> Cached(ca, Met(ca, first, dir, i).value)
  {
  }

  /** Something will be found: the page of step `j`, which is the first one offered or is still to come. */
  ghost predicate Coming(ca: Cache, first: int, dir: int, i: int, offered: seq<Page>, j: int)
    requires Starts(ca, first, dir)
  {
    && 0 <= j < Positions(ca.hi) && Met(ca, first, dir, j).Some?
    && if offered == [] then 0 <= i <= j else j < i <= j + Positions(ca.hi) && Met(ca, first, dir, j).value == offered[0]
  }

  /** In a cache with a page something comes in the first round. */
  lemma SomethingComes(ca: Cache, first: int, dir: int) returns (j: int)
    requires Starts(ca, first, dir) && ca.npages != 0
    ensures Coming(ca, first, dir, 0, [], j)
  {
    var t := Positions(ca.hi);
    var v := NonEmptyHasPosition(ca);
    CachedHasPosition(ca, v);
    var k := Rank(ca.hi, v.pgno, v.subno);
    RankBounded(ca.hi, v.pgno, v.subno);
    j := Steps(first, dir, k, t);
    RoundInverse(first, dir, j, k, t);
    MetHere(ca, first, dir, j, v.pgno, v.subno);
    var list := ca.hash[Hash(v.pgno)];
    var n :| 0 <= n < |list| && list[n] == v;
    assert Matches(list[n], v.pgno, v.subno);
  }

  lemma ComingOn(ca: Cache, first: int, dir: int, i: int, offered: seq<Page>, j: int)
    requires Starts(ca, first, dir) && Coming(ca, first, dir, i, offered, j)
    ensures 0 <= i < 2 * Positions(ca.hi)
    ensures var v := Met(ca, first, dir, i);
      if v.None? then Coming(ca, first, dir, i + 1, offered, j)
      else if offered == [] then Coming(ca, first, dir, i + 1, [v.value], i)
      else offered[0] != v.value ==> Coming(ca, first, dir, i + 1, offered + [v.value], j)
  {
    if i == j + Positions(ca.hi) {
      MetAgain(ca, first, dir, j);
    }
  }

  lemma ComingBound(ca: Cache, first: int, dir: int, i: int, offered: seq<Page>, j: int)
    requires Starts(ca, first, dir) && Coming(ca, first, dir, i, offered, j)
    ensures 0 <= i < 2 * Positions(ca.hi)
  {
  }

  /** In every cache with a page, whatever its subpage numbers, the walk ends before two rounds are over: a page is
   *  taken that the callback wants, or the first page offered is met again and no page offered was wanted. */
  lemma {:induction false} WalkEnds(ca: Cache, first: int, dir: int, func: Page -> bool, i: nat, offered: seq<Page>, j: int)
    requires Starts(ca, first, dir) && Coming(ca, first, dir, i, offered, j)
    requires forall v :: v in offered ==> !func(v) && Cached(ca, v)
    ensures var (r, o, n) := Walk(ca, first, dir, func, i, offered);
      && (forall v :: v in o ==> Cached(ca, v))
      && match r {
           case Some(v) =>
             && 0 < n <= 2 * Positions(ca.hi) && Met(ca, first, dir, n - 1) == r && Cached(ca, v) && func(v)
             && o != [] && o[|o| - 1] == v
           case None =>
             && 0 <= n < 2 * Positions(ca.hi) && o != [] && Met(ca, first, dir, n) == Some(o[0])
             && forall v :: v in o ==> !func(v)
         }
    decreases 2 * Positions(ca.hi) - i
  {
    hide Met, Inv, Positions, Cached, Coming;
    ComingBound(ca, first, dir, i, offered, j);
    ComingOn(ca, first, dir, i, offered, j);
    MetCached(ca, first, dir, i);
    var v := Met(ca, first, dir, i);
    if v.None? {
      WalkEnds(ca, first, dir, func, i + 1, offered, j);
    } else if !(offered != [] && offered[0] == v.value) && !func(v.value) {
      assert offered == [] ==> offered + [v.value] == [v.value];
      WalkEnds(ca, first, dir, func, i + 1, offered + [v.value], if offered == [] then i else j);
    }
  }

  lemma MetOnward(ca: Cache, first: int, dir: int, offered: seq<Page>, i: int)
    requires Starts(ca, first, dir) && ca.npages != 0 && WildcardsNewest(ca)
    requires 0 <= i < 2 * Positions(ca.hi) && Walking(ca, first, dir, offered, i)
    ensures Onward(ca, first, dir, offered, i, Met(ca, first, dir, i))
    ensures var v := Met(ca, first, dir, i);
      v.Some? ==> InOrder(ca, first, dir, offered + [v.value], i + 1) || (offered != [] && v.value == offered[0])
  {
    hide InOrder, StandsAt;
    var t := Positions(ca.hi);
    var v := Met(ca, first, dir, i);
    var x := PlaceFrom(ca.hi, Round(first, dir, i, t), FIRST_PAGE);
    Arrived(ca, first, dir, i, x.0, x.1);
    if i < t { FirstRound(ca, first, dir, offered, i, v); } else { SecondRound(ca, first, dir, offered, i, v); }
  }

  /** When every subpage numbered like the wildcard is the newest of its page, the walk offers every cached page at
   *  most once, in order, and none is left out. */
  lemma {:induction false} WalkRight(ca: Cache, first: int, dir: int, func: Page -> bool, i: nat, offered: seq<Page>)
    requires Starts(ca, first, dir) && ca.npages != 0 && WildcardsNewest(ca)
    requires i < 2 * Positions(ca.hi) && Walking(ca, first, dir, offered, i) && forall v :: v in offered ==> !func(v)
    ensures var (r, o, n) := Walk(ca, first, dir, func, i, offered); Ended(ca, first, dir, func, r, o, n)
    decreases 2 * Positions(ca.hi) - i
  {
    hide Met, Inv, Positions, InOrder, StandsAt;
    var v := Met(ca, first, dir, i);
    MetOnward(ca, first, dir, offered, i);
    MetCached(ca, first, dir, i);
    if v.None? {
      WalkRight(ca, first, dir, func, i + 1, offered);
    } else if !(offered != [] && offered[0] == v.value) && !func(v.value) {
      WalkRight(ca, first, dir, func, i + 1, offered + [v.value]);
    }
  }

  /** The walk before its first step. */
  lemma Begins(ca: Cache, pgno: int, subno: int, dir: int)
    requires Inv(ca) && ca.npages != 0 && FIRST_PAGE <= pgno <= LAST_PAGE && (dir == 1 || dir == -1)
    ensures var first := Goal(ca.hi, pgno, subno + dir, dir);
      Starts(ca, first, dir) && Walking(ca, first, dir, [], 0) && Heading(ca, first, dir, 0, pgno, subno)
  {
    var first := Goal(ca.hi, pgno, subno + dir, dir);
    var _ := NonEmptyHasPosition(ca);
    GoalBounded(ca.hi, pgno, subno + dir, dir);
    forall v: Page | Cached(ca, v) ensures StepsTo(ca, first, dir, v) >= 0 { StepsBounded(ca, first, dir, v); }
  }

  /** `cache_foreach_pg`: the page returned, the pages offered and the number of steps. */
  ghost function Foreach(ca: Cache, pgno: int, subno: int, dir: int, func: Page -> bool): (Option<Page>, seq<Page>, int)
    requires Inv(ca) && FIRST_PAGE <= pgno <= LAST_PAGE && (dir == 1 || dir == -1)
  {
    if ca.npages == 0 then (None, [], 0)
    else
      Begins(ca, pgno, StartSub(ca, pgno, subno, dir), dir);
      Walk(ca, FirstRank(ca, pgno, subno, dir), dir, func, 0, [])
  }

  /* ---- Exactly when the walk can be relied on ---- */

  /** Null means that no cached page will do. */
  ghost predicate NullMeansNone(ca: Cache, pgno: int, subno: int, dir: int, func: Page -> bool)
    requires Inv(ca) && FIRST_PAGE <= pgno <= LAST_PAGE && (dir == 1 || dir == -1)
  {
    Foreach(ca, pgno, subno, dir, func).0.None? <==> forall v: Page :: Cached(ca, v) ==> !func(v)
  }

  /** A page returned is cached and wanted. */
  lemma ForeachSound(ca: Cache, pgno: int, subno: int, dir: int, func: Page -> bool)
    requires Inv(ca) && FIRST_PAGE <= pgno <= LAST_PAGE && (dir == 1 || dir == -1)
    ensures var r := Foreach(ca, pgno, subno, dir, func).0; r.Some? ==> Cached(ca, r.value) && func(r.value)
  {
    if ca.npages != 0 {
      Begins(ca, pgno, StartSub(ca, pgno, subno, dir), dir);
      var first := FirstRank(ca, pgno, subno, dir);
      var j := SomethingComes(ca, first, dir);
      WalkEnds(ca, first, dir, func, 0, [], j);
    }
  }

  lemma ForeachRight(ca: Cache, pgno: int, subno: int, dir: int, func: Page -> bool)
    requires Inv(ca) && FIRST_PAGE <= pgno <= LAST_PAGE && (dir == 1 || dir == -1) && WildcardsNewest(ca)
    ensures NullMeansNone(ca, pgno, subno, dir, func)
    ensures var (r, o, n) := Foreach(ca, pgno, subno, dir, func);
      Ended(ca, FirstRank(ca, pgno, subno, dir), dir, func, r, o, n)
  {
    if ca.npages == 0 {
      NoPages(ca.hash);
    } else {
      Begins(ca, pgno, StartSub(ca, pgno, subno, dir), dir);
      WalkRight(ca, FirstRank(ca, pgno, subno, dir), dir, func, 0, []);
    }
  }

  /** Every cached subpage numbered like the wildcard is the newest of its page. */
  ghost predicate CachedWildcardsNewest(ca: Cache)
    requires Shaped(ca)
  {
    forall v: Page :: Cached(ca, v) && v.subno == ANY_SUB ==> Lookup(ca, v.pgno, ANY_SUB) == Some(v)
  }

  /** The receiver's subpage numbers have the bits of the wildcard only, so none is above it. */
  predicate Received(hi: seq<int>) {
    |hi| == LAST_PAGE + 1 && forall p :: FIRST_PAGE <= p <= LAST_PAGE ==> hi[p] <= ANY_SUB + 1
  }

  lemma NewestWhereReceived(ca: Cache)
    requires Inv(ca) && Received(ca.hi) && CachedWildcardsNewest(ca)
    ensures WildcardsNewest(ca)
  {
    forall p | FIRST_PAGE <= p <= LAST_PAGE && ca.hi[p] > ANY_SUB ensures NewestIs(ca, p, ANY_SUB) {
      assert Exact(ca, p);
      var list := ca.hash[Hash(p)];
      var i :| 0 <= i < |list| && KeyOf(list[i]) == (p, ANY_SUB);
      assert list[i] in list && Cached(ca, list[i]);
    }
  }

  lemma NotMet(ca: Cache, first: int, dir: int, i: int, w: Page)
    requires Starts(ca, first, dir) && 0 <= i < 2 * Positions(ca.hi)
    requires w.subno == ANY_SUB && Lookup(ca, w.pgno, ANY_SUB) != Some(w)
    ensures Met(ca, first, dir, i) != Some(w)
  {
  }

  /** A page numbered like the wildcard that is not the newest of its page is never returned. */
  lemma NeverReturned(ca: Cache, pgno: int, subno: int, dir: int, func: Page -> bool, w: Page)
    requires Inv(ca) && FIRST_PAGE <= pgno <= LAST_PAGE && (dir == 1 || dir == -1)
    requires w.subno == ANY_SUB && Lookup(ca, w.pgno, ANY_SUB) != Some(w)
    ensures Foreach(ca, pgno, subno, dir, func).0 != Some(w)
  {
    hide Met, Cached, Walk;
    if ca.npages != 0 {
      Begins(ca, pgno, StartSub(ca, pgno, subno, dir), dir);
      var first := FirstRank(ca, pgno, subno, dir);
      var j := SomethingComes(ca, first, dir);
      WalkEnds(ca, first, dir, func, 0, [], j);
      var n := Walk(ca, first, dir, func, 0, []).2;
      if 0 < n <= 2 * Positions(ca.hi) { NotMet(ca, first, dir, n - 1, w); }
    }
  }

  /** For subpage numbers as received, whatever the start and the direction: null can be relied on for every
   *  callback exactly when every cached subpage numbered like the wildcard is the newest of its page. */
  lemma ReliableExactly(ca: Cache, pgno: int, subno: int, dir: int)
    requires Inv(ca) && Received(ca.hi) && FIRST_PAGE <= pgno <= LAST_PAGE && (dir == 1 || dir == -1)
    ensures (forall func: Page -> bool :: NullMeansNone(ca, pgno, subno, dir, func)) <==> CachedWildcardsNewest(ca)
  {
    if CachedWildcardsNewest(ca) {
      NewestWhereReceived(ca);
      forall func: Page -> bool { ForeachRight(ca, pgno, subno, dir, func); }
    } else {
      var w: Page :| Cached(ca, w) && w.subno == ANY_SUB && Lookup(ca, w.pgno, ANY_SUB) != Some(w);
      var func := v => v == w;
      ForeachSound(ca, pgno, subno, dir, func);
      NeverReturned(ca, pgno, subno, dir, func, w);
      assert !NullMeansNone(ca, pgno, subno, dir, func);
    }
  }

  /** Two pages put into an empty cache, the first numbered like the wildcard: no walk finds it. */
  lemma WildcardMissed(w: Page, v: Page, pgno: int, subno: int, dir: int)
    requires Cacheable(w) && Cacheable(v) && v.pgno == w.pgno && w.subno == ANY_SUB && v.subno < ANY_SUB
    requires FIRST_PAGE <= pgno <= LAST_PAGE && (dir == 1 || dir == -1)
    ensures Inv(Empty())
    ensures var one := Put(Empty(), w).ca; Inv(one)
    ensures var two := Put(Put(Empty(), w).ca, v).ca;
      Inv(two) && Received(two.hi) && Cached(two, w) && Foreach(two, pgno, subno, dir, u => u == w).0.None?
  {
    EmptyInv();
    PutInv(Empty(), w);
    var one := Put(Empty(), w).ca;
    assert one.hash[Hash(w.pgno)] == [w];
    PutInv(one, v);
    var two := Put(one, v).ca;
    assert two.hash[Hash(w.pgno)] == [v, w];
    var func := u => u == w;
    ForeachSound(two, pgno, subno, dir, func);
    NeverReturned(two, pgno, subno, dir, func, w);
  }
}
