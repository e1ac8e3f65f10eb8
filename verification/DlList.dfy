/** The doubly linked list of the teletext browser (alevt/dllist.h).
 *
 *  The three words of a list head serve as two overlapping nodes in the source: one in front of the first node,
 *  whose `prev` is the null word, and one behind the last node, whose `next` is the same null word.  Here they
 *  are two node objects.
 */
module DlList {
  class DlNode {
    var next: DlNode?
    var prev: DlNode?

    constructor ()
    {
    }
  }

  function Without<T>(s: seq<T>, k: nat): seq<T>
    requires k < |s|
  {
    s[..k] + s[k + 1..]
  }

  lemma WithoutAt<T>(s: seq<T>, k: nat)
    requires k < |s|
    ensures |Without(s, k)| == |s| - 1
    ensures forall i :: 0 <= i < |s| - 1 ==> Without(s, k)[i] == if i < k then s[i] else s[i + 1]
  {
  }

  /** Without one of its inner elements, a sequence has the inner part without it. */
  lemma InnerWithout<T>(s: seq<T>, k: nat)
    requires k + 2 < |s|
    ensures Without(s, k + 1)[1..|s| - 2] == Without(s[1..|s| - 1], k)
  {
  }

  /** The same for a new element behind the first and for one in front of the last. */
  lemma InnerWith<T>(s: seq<T>, x: T)
    requires |s| >= 2
    ensures s[..1] + [x] + s[1..] == [s[0], x] + s[1..]
    ensures ([s[0], x] + s[1..])[1..|s|] == [x] + s[1..|s| - 1]
    ensures (s[..|s| - 1] + [x] + s[|s| - 1..])[1..|s|] == s[1..|s| - 1] + [x]
  {
  }

  class DlHead {
    const front: DlNode
    const back: DlNode
    /** The nodes from one sentinel to the other. */
    ghost var chain: seq<DlNode>

    ghost predicate Valid()
      reads this, chain
    {
      && |chain| >= 2 && chain[0] == front && chain[|chain| - 1] == back
      && (forall i, j :: 0 <= i < j < |chain| ==> chain[i] != chain[j])
      && (forall i {:trigger chain[i].next} :: 0 <= i < |chain| - 1 ==> chain[i].next == chain[i + 1])
      && (forall i {:trigger chain[i].prev} :: 1 <= i < |chain| ==> chain[i].prev == chain[i - 1])
      && chain[0].prev == null && chain[|chain| - 1].next == null
    }

    /** The nodes of the list, first to last. */
    ghost function Nodes(): seq<DlNode>
      requires |chain| >= 2
      reads this
    {
      chain[1..|chain| - 1]
    }

    /** `dl_init` */
    constructor ()
      ensures Valid() && Nodes() == [] && fresh(chain)
    {
      var f := new DlNode();
      var b := new DlNode();
      f.next, f.prev := b, null;
      b.next, b.prev := null, f;
      front, back, chain := f, b, [f, b];
    }

    /** `dl_empty` */
    method IsEmpty() returns (empty: bool)
      requires Valid()
      ensures empty <==> Nodes() == []
    {
      assert chain[0].next == chain[1];
      empty := front.next.next == null;
      assert |chain| > 2 ==> chain[1].next == chain[2];
    }

    /** The walk `for (n = head->first; n->next; n = n->next)` visits exactly the nodes, in order. */
    method Walk() returns (visited: seq<DlNode>)
      requires Valid()
      ensures visited == Nodes()
    {
      visited := [];
      assert chain[0].next == chain[1];
      var n: DlNode := front.next;
      while n.next != null
        invariant |visited| + 2 <= |chain| && visited == chain[1..|visited| + 1] && n == chain[|visited| + 1]
        decreases |chain| - |visited|
      {
        assert chain[|visited| + 1].next == chain[|visited| + 2];
        visited := visited + [n];
        n := n.next;
      }
    }

    /** `dl_remove` of node number `k` of the list. */
    method Remove(n: DlNode, ghost k: nat)
      requires Valid() && k < |Nodes()| && Nodes()[k] == n
      modifies this, chain
      ensures Valid() && Nodes() == Without(old(Nodes()), k) && chain == Without(old(chain), k + 1)
      ensures n.next == old(n.next) && n.prev == old(n.prev)
    {
      ghost var c := chain;
      assert c[k + 1] == n && c[k + 1].prev == c[k] && c[k + 1].next == c[k + 2];
      n.prev.next := n.next;
      n.next.prev := n.prev;
      assert c[k].next == c[k + 2] && c[k + 2].prev == c[k];
      chain := Without(c, k + 1);
      WithoutAt(c, k + 1);
      forall i | 0 <= i < |chain| - 1 ensures chain[i].next == chain[i + 1] {
        assert if i < k then c[i].next == c[i + 1] else i > k ==> c[i + 1].next == c[i + 2];
      }
      forall i | 1 <= i < |chain| ensures chain[i].prev == chain[i - 1] {
        assert if i <= k then c[i].prev == c[i - 1] else i > k + 1 ==> c[i + 1].prev == c[i];
      }
      InnerWithout(c, k);
    }

    /** `dl_insert_after` behind node number `k` of the chain. */
    method InsertAfter(p: DlNode, n: DlNode, ghost k: nat)
      requires Valid() && k < |chain| - 1 && chain[k] == p && n !in chain
      modifies this, chain, n
      ensures Valid() && chain == old(chain)[..k + 1] + [n] + old(chain)[k + 1..]
    {
      ghost var c := chain;
      assert c[k].next == c[k + 1];
      n.next := p.next;
      n.prev := p;
      p.next := n;
      n.next.prev := n;
      chain := c[..k + 1] + [n] + c[k + 1..];
      forall i | 0 <= i < |chain| ensures chain[i] == if i <= k then c[i] else if i == k + 1 then n else c[i - 1] {}
    }

    /** `dl_insert_first`: before the first node, which is behind its predecessor. */
    method InsertFirst(n: DlNode)
      requires Valid() && n !in chain
      modifies this, chain, n
      ensures Valid() && Nodes() == [n] + old(Nodes()) && chain == [front, n] + old(chain)[1..]
    {
      assert chain[0].next == chain[1] && chain[1].prev == chain[0];
      InnerWith(chain, n);
      InsertAfter(front.next.prev, n, 0);
    }

    /** `dl_insert_last` */
    method InsertLast(n: DlNode)
      requires Valid() && n !in chain
      modifies this, chain, n
      ensures Valid() && Nodes() == old(Nodes()) + [n]
    {
      ghost var k := |chain| - 2;
      assert chain[k + 1].prev == chain[k];
      InnerWith(chain, n);
      InsertAfter(back.prev, n, k);
    }

    /** `dl_insert_first(h, dl_remove(n))`: the node moves to the front and the others keep their order. */
    method MoveToFront(n: DlNode, ghost k: nat)
      requires Valid() && k < |Nodes()| && Nodes()[k] == n
      modifies this, chain
      ensures Valid() && Nodes() == [n] + Without(old(Nodes()), k)
    {
      ghost var c := chain;
      Remove(n, k);
      assert n !in chain by {
        assert c[k + 1] == n;
        WithoutAt(c, k + 1);
      }
      InsertFirst(n);
    }
  }
}
