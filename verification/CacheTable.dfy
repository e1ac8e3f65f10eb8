/** The page cache as the source has it: a table of lists, a side table and a counter, updated in place.  Every
 *  method is proved against the functions of module `PageCache`; the walk is proved against the ranks of `CacheWalk`. */
module CacheTable {
  import opened Common
  import opened PageCache
  import opened CacheWalk
  import opened CacheOrder

  /** `do_erc`: works on the new page line by line and character by character. */
  method DoErc(was: Page, now: Page) returns (r: Page)
    requires FullText(was) && FullText(now)
    ensures r == Merge(was, now)
  {
    if now.errors == 0 && was.lines == now.lines { return now; }
    var text := now.text;
    var l := 0;
    while l < H
      invariant l <= H && |text| == H
      invariant forall k :: 0 <= k < l ==> text[k] == MergeRow(was.text[k], now.text[k], k in was.lines, k in now.lines)
      invariant forall k :: l <= k < H ==> text[k] == now.text[k]
    {
      if l !in now.lines {
        text := text[l := was.text[l]];
      } else if l in was.lines {
        var row := text[l];
        var c := 0;
        while c < W
          invariant c <= W && |row| == W
          invariant forall k :: 0 <= k < c ==> row[k] == if now.text[l][k] == BAD_CHAR then was.text[l][k] else now.text[l][k]
          invariant forall k :: c <= k < W ==> row[k] == now.text[l][k]
        {
          if row[c] == BAD_CHAR { row := row[c := was.text[l][c]]; }
          c := c + 1;
        }
        assert row == MergeRow(was.text[l], now.text[l], true, true);
        text := text[l := row];
      }
      l := l + 1;
    }
    r := now.(text := text, lines := now.lines + was.lines);
  }

  /** The page behind the pages kept. */
  lemma NextOf(kept: seq<Page>, rest: seq<Page>)
    requires rest != []
    ensures (kept + rest)[|kept|] == rest[0] && Without(kept + rest, |kept|) == kept + rest[1..]
    ensures kept + rest == (kept + [rest[0]]) + rest[1..]
  {
  }

  class CacheTable {
    const hash: array<seq<Page>>
    const hi: array<int>
    var erc: bool
    var npages: int

    ghost predicate Valid()
      reads this, hash, hi
    {
      Inv(View())
    }

    ghost function View(): Cache
      reads this, hash, hi
    {
      Cache(hash[..], erc, npages, hi[..])
    }

    /** `cache_open`, before the help pages are put. */
    constructor ()
      ensures Valid() && View() == Empty() && fresh(hash) && fresh(hi)
    {
      hash := new seq<Page>[HASH_SIZE](_ => []);
      hi := new int[LAST_PAGE + 1](_ => 0);
      erc, npages := true, 0;
      new;
      assert hash[..] == Empty().hash && hi[..] == Empty().hi;
      EmptyInv();
    }

    /** `cache_lookup` */
    method Lookup(pgno: int, subno: int) returns (r: Option<Page>)
      requires Valid()
      ensures r == PageCache.Lookup(View(), pgno, subno)
    {
      var list := hash[Hash(pgno)];
      var i := 0;
      while i < |list|
        invariant i <= |list| && Find(list, pgno, subno, i) == Find(list, pgno, subno, 0)
      {
        if list[i].pgno == pgno {
          if subno == ANY_SUB || list[i].subno == subno { return Some(list[i]); }
        }
        i := i + 1;
      }
      return None;
    }

    /** `cache_get` */
    method Get(pgno: int, subno: int) returns (r: Option<Page>)
      requires Valid()
      modifies hash
      ensures Valid() && Result(View(), r) == PageCache.Get(old(View()), pgno, subno)
    {
      GetInv(View(), pgno, subno);
      var h := Hash(pgno);
      var list := hash[h];
      var i := 0;
      while i < |list| && !(list[i].pgno == pgno && (subno == ANY_SUB || list[i].subno == subno))
        invariant i <= |list| && Find(list, pgno, subno, i) == Find(list, pgno, subno, 0)
      {
        i := i + 1;
      }
      if i == |list| { return None; }
      var p := list[i];
      hash[h] := [p] + Without(list, i);
      return Some(p);
    }

    /** `cache_put` */
    method Put(p: Page) returns (r: Option<Page>)
      requires Valid() && Cacheable(p)
      modifies this, hash, hi
      ensures Valid() && Result(View(), r) == PageCache.Put(old(View()), p)
    {
      PutInv(View(), p);
      var h := Hash(p.pgno);
      assert GoodList(View(), h);
      var i := FindExact(hash[h], KeyOf(p));
      if i < |hash[h]| {
        r := PutKnown(p, i);
      } else {
        Count(p);
        SetList(h, [p] + hash[h]);
        r := Some(p);
      }
    }

    method FindExact(list: seq<Page>, key: Key) returns (i: nat)
      ensures i == FindKey(list, key, 0)
    {
      i := 0;
      while i < |list| && !(list[i].pgno == key.0 && list[i].subno == key.1)
        invariant i <= |list| && FindKey(list, key, i) == FindKey(list, key, 0)
      {
        i := i + 1;
      }
    }

    /** Stores `p` over page `i` of its bucket and moves it to the front. */
    method PutKnown(p: Page, i: nat) returns (r: Option<Page>)
      requires Shaped(View()) && i < |hash[Hash(p.pgno)]| && FullText(p) && FullText(hash[Hash(p.pgno)][i])
      modifies hash
      ensures var ca := old(View());
        var h := Hash(p.pgno);
        && r == Some(Stored(ca, Some(ca.hash[h][i]), p))
        && View() == ca.(hash := ca.hash[h := [r.value] + Without(ca.hash[h], i)])
    {
      var h := Hash(p.pgno);
      var q := Renew(hash[h][i], p);
      SetList(h, [q] + Without(hash[h], i));
      r := Some(q);
    }

    method SetList(h: nat, list: seq<Page>)
      requires Shaped(View()) && h < HASH_SIZE
      modifies hash
      ensures View() == old(View()).(hash := old(View()).hash[h := list])
    {
      hash[h] := list;
    }

    /** A new page is counted and told to the side table. */
    method Count(p: Page)
      requires Shaped(View()) && 0 <= p.pgno <= LAST_PAGE
      modifies this`npages, hi
      ensures var was := old(View()); View() == was.(npages := was.npages + 1,
        hi := if p.subno >= was.hi[p.pgno] then was.hi[p.pgno := p.subno + 1] else was.hi)
    {
      if p.subno >= hi[p.pgno] { hi[p.pgno] := p.subno + 1; }
      npages := npages + 1;
    }

    /** What is stored over a page that is already there. */
    method Renew(was: Page, now: Page) returns (q: Page)
      requires Shaped(View()) && FullText(was) && FullText(now)
      ensures q == Stored(View(), Some(was), now)
    {
      q := now;
      if erc { q := DoErc(was, now); }
    }

    /** One bucket of `cache_reset`. */
    method ResetList(h: nat)
      requires h < hash.Length
      modifies this`npages, hash
      ensures hash[h] == Help(old(hash[h])) && npages == old(npages) - (|old(hash[h])| - |hash[h]|)
      ensures forall k :: 0 <= k < hash.Length && k != h ==> hash[k] == old(hash[k])
    {
      var i := 0;
      ghost var list := hash[h];
      ghost var kept: seq<Page>, rest := [], list;
      while i < |hash[h]|
        invariant i == |kept| && hash[h] == kept + rest && Help(list) == kept + Help(rest)
        invariant npages == old(npages) - (|list| - |hash[h]|)
        invariant forall k :: 0 <= k < hash.Length && k != h ==> hash[k] == old(hash[k])
        decreases |rest|
      {
        NextOf(kept, rest);
        if hash[h][i].pgno / 256 != 9 {
          hash[h] := PageCache.Without(hash[h], i);
          npages := npages - 1;
        } else {
          Regroup(kept, [rest[0]], Help(rest[1..]));
          kept := kept + [rest[0]];
          i := i + 1;
        }
        rest := rest[1..];
      }
      assert rest == [] && kept + [] == kept;
    }

    /** `cache_reset` */
    method Reset()
      requires Valid()
      modifies this, hash, hi
      ensures Valid() && View() == PageCache.Reset(old(View()))
    {
      ResetInv(View());
      ResetLists();
      ClearSides();
      assert hash[..] == PageCache.Reset(old(View())).hash;
      assert hi[..] == PageCache.Reset(old(View())).hi;
    }

    method ResetLists()
      requires Shaped(View())
      modifies this`npages, hash
      ensures Shaped(View())
      ensures forall k :: 0 <= k < HASH_SIZE ==> hash[k] == Help(old(hash[k]))
      ensures npages == old(npages) - (Total(old(hash[..])) - Total(hash[..]))
    {
      ghost var was := hash[..];
      var h := 0;
      while h < HASH_SIZE
        modifies this`npages, hash
        invariant h <= HASH_SIZE
        invariant forall k :: 0 <= k < h ==> hash[k] == Help(was[k])
        invariant forall k :: h <= k < HASH_SIZE ==> hash[k] == was[k]
        invariant npages - Total(hash[..]) == old(npages) - Total(was)
      {
        ghost var before := hash[..];
        ResetList(h);
        assert hash[..] == before[h := hash[h]];
        TotalUpdate(before, h, hash[h]);
        h := h + 1;
      }
    }

    /** The `memset` of the side table. */
    method ClearSides()
      requires Shaped(View())
      modifies hi
      ensures Shaped(View())
      ensures forall k :: 0 <= k <= LAST_PAGE ==> hi[k] == if k < 0x900 then 0 else old(hi[k])
    {
      var p := 0;
      while p < 0x900
        modifies hi
        invariant p <= 0x900
        invariant forall k :: 0 <= k < p ==> hi[k] == 0
        invariant forall k :: p <= k <= LAST_PAGE ==> hi[k] == old(hi[k])
      {
        hi[p] := 0;
        p := p + 1;
      }
    }

    /** The skipping loop: on to the next position. */
    method Skip(pgno: int, subno: int, dir: int) returns (p: int, s: int)
      requires Valid() && npages != 0 && FIRST_PAGE <= pgno <= LAST_PAGE && (dir == 1 || dir == -1)
      ensures Sides(hi[..]) && Position(hi[..], p, s) && Rank(hi[..], p, s) == Goal(hi[..], pgno, subno, dir)
    {
      p, s := pgno, subno;
      ghost var v := NonEmptyHasPosition(View());
      CachedHasPosition(View(), v);
      while s < 0 || s >= hi[p]
        invariant FIRST_PAGE <= p <= LAST_PAGE && Goal(hi[..], p, s, dir) == Goal(hi[..], pgno, subno, dir)
        decreases Skips(hi[..], p, s, dir, v.pgno)
      {
        TurnKeepsGoal(hi[..], p, s, dir);
        p := p + dir;
        if p < FIRST_PAGE { p := LAST_PAGE; }
        if p > LAST_PAGE { p := FIRST_PAGE; }
        s := if dir < 0 then hi[p] - 1 else 0;
      }
    }

    /** The loop of `cache_foreach_pg`; `n` counts the steps. */
    method Walk(pgno: int, subno: int, dir: int, func: Page -> bool)
      returns (r: Option<Page>, offered: seq<Page>, ghost n: nat)
      requires Valid() && npages != 0 && FIRST_PAGE <= pgno <= LAST_PAGE && (dir == 1 || dir == -1)
      ensures Starts(View(), Goal(hi[..], pgno, subno + dir, dir), dir)
      ensures var end := CacheWalk.Walk(View(), Goal(hi[..], pgno, subno + dir, dir), dir, func, 0, []);
        r == end.0 && offered == end.1 && n == end.2
    {
      hide Goal, Met, Coming, Walking, Heading, WildcardsNewest;
      ghost var ca := View();
      ghost var first := Goal(ca.hi, pgno, subno + dir, dir);
      Begins(ca, pgno, subno, dir);
      n := 0;
      var p, s := pgno, subno;
      var start: Option<Page> := None;
      offered := [];
      ghost var j := SomethingComes(ca, first, dir);
      while true
        invariant FIRST_PAGE <= p <= LAST_PAGE && Coming(ca, first, dir, n, offered, j) && Heading(ca, first, dir, n, p, s)
        invariant start == if offered == [] then None else Some(offered[0])
        invariant CacheWalk.Walk(ca, first, dir, func, n, offered) == CacheWalk.Walk(ca, first, dir, func, 0, [])
        decreases 2 * Positions(ca.hi) - n
      {
        ghost var q, u := p, s;
        ComingBound(ca, first, dir, n, offered, j);
        ComingOn(ca, first, dir, n, offered, j);
        s := s + dir;
        p, s := Skip(p, s, dir);
        var v := Lookup(p, s);
        Reached(ca, first, dir, n, q, u, p, s);
        if v.Some? {
          if start == v { return None, offered, n; }
          if func(v.value) { return v, offered + [v.value], n + 1; }
          j := if start == None then n else j;
          if start == None { start := v; }
          assert offered == [] ==> offered + [v.value] == [v.value];
          offered := offered + [v.value];
        }
        n := n + 1;
        ComingBound(ca, first, dir, n, offered, j);
      }
    }

    /** `cache_foreach_pg`: offers cached pages to `func`, going round from the given page, until one is taken.
     *  `offered` records the pages offered. */
    method ForeachPg(pgno: int, subno: int, dir: int, func: Page -> bool)
      returns (r: Option<Page>, offered: seq<Page>)
      requires Valid() && FIRST_PAGE <= pgno <= LAST_PAGE && (dir == 1 || dir == -1)
      ensures r == Foreach(View(), pgno, subno, dir, func).0 && offered == Foreach(View(), pgno, subno, dir, func).1
      // a page returned is cached and will do
      ensures r.Some? ==> Cached(View(), r.value) && func(r.value)
      // unless the wildcard is in the way, null exactly when no cached page will do, and otherwise the page returned is the
      // nearest one to the place asked for that will; pages are offered from the nearest on, each at most once, and none
      // is left out on the way
      ensures WildcardsNewest(View()) ==>
        && (r.None? <==> forall v: Page :: Cached(View(), v) ==> !func(v))
        && FromNearest(View(), Place(View(), pgno, subno, dir), dir, offered)
        && (r.Some? ==> forall u: Page :: Wanted(View(), func, u) && u != r.value ==>
              Nearer(Place(View(), pgno, subno, dir), dir, KeyOf(r.value), KeyOf(u)))
    {
      hide Ended, Goal, CacheWalk.Walk, Foreach, Nearer, Place, FromNearest;
      r, offered := RunWalk(pgno, subno, dir, func);
      ForeachSound(View(), pgno, subno, dir, func);
      if WildcardsNewest(View()) {
        ForeachRight(View(), pgno, subno, dir, func);
        ForeachNearest(View(), pgno, subno, dir, func);
      }
    }

    /** Its body, but for the properties. */
    method RunWalk(pgno: int, subno: int, dir: int, func: Page -> bool) returns (r: Option<Page>, offered: seq<Page>)
      requires Valid() && FIRST_PAGE <= pgno <= LAST_PAGE && (dir == 1 || dir == -1)
      ensures Foreach(View(), pgno, subno, dir, func).0 == r && Foreach(View(), pgno, subno, dir, func).1 == offered
    {
      hide Goal, Inv, CacheWalk.Walk;
      if npages == 0 { return None, []; }
      var s := subno;
      var found := Lookup(pgno, s);
      if found.Some? { s := found.value.subno; } else if s == ANY_SUB { s := if dir < 0 then 0 else 0xffff; }
      ghost var n;
      r, offered, n := Walk(pgno, s, dir, func);
    }
  }
}
