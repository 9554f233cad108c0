/** The two heaps of backend/internal/orderbook/heap.go, driven by the algorithms of Go's container/heap
    (Push, Pop, Remove, up, down), which are written out here. `BuyHeap` and `SellHeap` are the same
    code with different comparators, so one class carries its side. */
module OrderHeaps {
  import opened Domain

  class OrderEntry {
    const order: Order
    var index: int

    constructor (order: Order)
      ensures this.order == order
    {
      this.order := order;
      index := 0;
    }
  }

  function Parent(j: int): int {
    if j == 0 then 0 else (j - 1) / 2
  }

  ghost predicate Before(side: Side, h: seq<OrderEntry>, i: int, j: int)
    requires 0 <= i < |h| && 0 <= j < |h|
  {
    Less(side, h[i].order.terms, h[j].order.terms)
  }

  /** The first `n` entries are in heap order. */
  ghost predicate Ordered(side: Side, h: seq<OrderEntry>, n: int)
    requires 0 <= n <= |h|
  {
    forall j :: 0 < j < n ==> !Before(side, h, j, Parent(j))
  }

  /** Heap order with only the pair (parent of `at`, `at`) possibly broken, as `up` needs it. */
  ghost predicate OrderedAbove(side: Side, h: seq<OrderEntry>, n: int, at: int)
    requires 0 <= at < n <= |h|
  {
    && (forall j :: 0 < j < n && j != at ==> !Before(side, h, j, Parent(j)))
    && (forall j :: 0 < j < n && Parent(j) == at ==> !Before(side, h, j, Parent(at)))
  }

  /** Heap order with only the pairs around `at` possibly broken, as `down` needs it. */
  ghost predicate OrderedAround(side: Side, h: seq<OrderEntry>, n: int, at: int)
    requires 0 <= n <= |h| && 0 <= at < |h|
  {
    && (forall j :: 0 < j < n && j != at && Parent(j) != at ==> !Before(side, h, j, Parent(j)))
    && (forall j :: 0 < j < n && Parent(j) == at && at != 0 ==> !Before(side, h, j, Parent(at)))
  }

  /** The first `n` positions hold the same entries in both sequences, and the others are untouched. */
  ghost predicate Rearranged(a: seq<OrderEntry>, b: seq<OrderEntry>, n: int)
    requires 0 <= n
  {
    && n <= |a| == |b|
    && a[n..] == b[n..]
    && (forall e | e in a[..n] :: e in b[..n])
    && (forall e | e in b[..n] :: e in a[..n])
  }

  lemma SwapRearranges(h: seq<OrderEntry>, i: int, j: int, h0: seq<OrderEntry>, n: int)
    requires 0 <= i < n && 0 <= j < n && Rearranged(h, h0, n)
    ensures Rearranged(Swapped(h, i, j), h0, n)
  {
    var s := Swapped(h, i, j);
    forall e | e in h[..n]
      ensures e in s[..n]
    {
      var k :| 0 <= k < n && h[k] == e;
      assert s[..n][if k == i then j else if k == j then i else k] == e;
    }
    assert s[n..] == h[n..];
  }

  lemma SameMembers(a: seq<OrderEntry>, b: seq<OrderEntry>, n: int)
    requires 0 <= n && Rearranged(a, b, n)
    ensures forall e | e in a :: e in b
    ensures forall e | e in b :: e in a
    ensures forall k :: 0 <= k < |a| ==> a[k] in b
  {
    assert a == a[..n] + a[n..] && b == b[..n] + b[n..];
  }

  lemma SwapMembers(h: seq<OrderEntry>, i: int, j: int)
    requires 0 <= i < |h| && 0 <= j < |h|
    ensures forall e | e in h :: e in Swapped(h, i, j)
    ensures forall e | e in Swapped(h, i, j) :: e in h
    ensures forall k :: 0 <= k < |h| ==> Swapped(h, i, j)[k] in h
  {
    assert Rearranged(h, h, |h|);
    SwapRearranges(h, i, j, h, |h|);
    SameMembers(Swapped(h, i, j), h, |h|);
  }

  /** Cutting off an entry that is last after a rearrangement removes just that entry. */
  lemma CutMembers(a: seq<OrderEntry>, b: seq<OrderEntry>, n: int)
    requires 0 <= n && |a| == n + 1 && Rearranged(a, b, n)
    requires b[n] !in b[..n]
    ensures forall e | e in a[..n] :: e in b && e != b[n]
    ensures forall e | e in b && e != b[n] :: e in a[..n]
    ensures a[n] == b[n]
  {
  }

  /** A heap's order survives cutting off entries at its end. */
  lemma CutOrdered(side: Side, h: seq<OrderEntry>, n: int)
    requires 0 <= n <= |h| && (Ordered(side, h, n) || Ordered(side, h, |h|))
    ensures Ordered(side, h[..n], n) && Rearranged(h, h, n)
  {
  }

  ghost function Swapped(h: seq<OrderEntry>, i: int, j: int): seq<OrderEntry>
    requires 0 <= i < |h| && 0 <= j < |h|
  {
    h[i := h[j]][j := h[i]]
  }

  /** One step of `up`: swapping a broken child with its parent moves the open pair to the parent. */
  lemma UpStep(side: Side, h: seq<OrderEntry>, n: int, j: int)
    requires 0 < j < n <= |h| && OrderedAbove(side, h, n, j) && Before(side, h, j, Parent(j))
    ensures OrderedAbove(side, Swapped(h, Parent(j), j), n, Parent(j))
  {
  }

  /** Moving the last entry to position `i` of a heap leaves heap order open only around `i`. */
  lemma ReplaceByLast(side: Side, h: seq<OrderEntry>, i: int)
    requires 0 <= i < |h| - 1 && Ordered(side, h, |h|)
    ensures OrderedAround(side, Swapped(h, i, |h| - 1), |h| - 1, i)
  {
  }

  /** `down` has chosen the child no other child of `i` comes before. */
  lemma FirstChild(side: Side, h: seq<OrderEntry>, n: int, i: int, j: int)
    requires 0 <= i && 2 * i + 1 < n <= |h|
    requires j == if 2 * i + 2 < n && Before(side, h, 2 * i + 2, 2 * i + 1) then 2 * i + 2 else 2 * i + 1
    ensures Parent(j) == i
    ensures forall k :: 0 < k < n && Parent(k) == i ==> !Before(side, h, k, j)
  {
  }

  /** When no child of the hole comes before it, only the pair above the hole is left open. */
  lemma DownStop(side: Side, h: seq<OrderEntry>, n: int, i: int, j: int)
    requires 0 <= n <= |h| && 0 <= i < |h| && OrderedAround(side, h, n, i)
    requires j == 2 * i + 1 >= n || (0 < j < n && !Before(side, h, j, i))
    requires j < n ==> forall k :: 0 < k < n && Parent(k) == i ==> !Before(side, h, k, j)
    ensures i < n ==> OrderedAbove(side, h, n, i)
    ensures i >= n || i == 0 || !Before(side, h, i, Parent(i)) ==> Ordered(side, h, n)
  {
  }

  /** One step of `down`: swapping a broken parent with its first child moves the hole to that child. */
  lemma DownStep(side: Side, h: seq<OrderEntry>, n: int, i: int, j: int)
    requires 0 <= i < j < n <= |h| && Parent(j) == i
    requires OrderedAround(side, h, n, i) && Before(side, h, j, i)
    requires forall k :: 0 < k < n && Parent(k) == i ==> !Before(side, h, k, j)
    ensures OrderedAround(side, Swapped(h, i, j), n, j)
    ensures !Before(side, Swapped(h, i, j), j, i)
  {
  }

  /** In heap order nothing comes before the root: no entry has a better price, and none of the same price
      is older. */
  lemma {:induction false} RootIsBest(side: Side, h: seq<OrderEntry>, j: nat)
    requires j < |h| && Ordered(side, h, |h|)
    ensures !Before(side, h, j, 0)
    ensures var root, o := h[0].order.terms, h[j].order.terms;
      && (if side.Buy? then root.price >= o.price else root.price <= o.price)
      && (root.price == o.price ==> root.createdAt <= o.createdAt)
  {
    NotAfter(side, h[0].order.terms, h[j].order.terms);
    if j > 0 {
      RootIsBest(side, h, Parent(j));
    }
  }

  class OrderHeap {
    const side: Side
    var h: seq<OrderEntry>

    constructor (side: Side)
      ensures this.side == side && h == []
    {
      this.side := side;
      h := [];
    }

    /** Every entry knows its own position. */
    ghost predicate Indexed()
      reads this, h
    {
      forall i :: 0 <= i < |h| ==> h[i].index == i
    }

    ghost predicate Valid()
      reads this, h
    {
      Indexed() && Ordered(side, h, |h|)
    }

    predicate LessAt(i: int, j: int)
      requires 0 <= i < |h| && 0 <= j < |h|
      reads this
    {
      Less(side, h[i].order.terms, h[j].order.terms)
    }

    method Swap(i: int, j: int)
      requires Indexed() && 0 <= i < |h| && 0 <= j < |h|
      modifies this, h
      ensures Indexed()
      ensures h == Swapped(old(h), i, j)
    {
      h := h[i := h[j]][j := h[i]];
      h[i].index := i;
      h[j].index := j;
    }

    /** container/heap up(h, j) */
    method Up(start: int, ghost n: int)
      requires 0 <= start < n <= |h|
      requires Indexed() && OrderedAbove(side, h, n, start)
      modifies this, h
      ensures Indexed() && Rearranged(h, old(h), n) && Ordered(side, h, n)
    {
      var j := start;
      while true
        invariant 0 <= j < n
        invariant Rearranged(h, old(h), n) && Indexed() && OrderedAbove(side, h, n, j)
        decreases j
      {
        var i := Parent(j);
        if i == j || !LessAt(j, i) {
          break;
        }
        SwapRearranges(h, i, j, old(h), n);
        SameMembers(h, old(h), n);
        UpStep(side, h, n, j);
        Swap(i, j);
        j := i;
      }
    }

    /** container/heap down(h, i0, n) */
    method Down(start: int, n: int) returns (moved: bool)
      requires 0 <= n <= |h| && 0 <= start < |h|
      requires Indexed() && OrderedAround(side, h, n, start)
      modifies this, h
      ensures Indexed() && Rearranged(h, old(h), n)
      ensures moved ==> Ordered(side, h, n)
      ensures !moved ==> h == old(h) && (start < n ==> OrderedAbove(side, h, n, start))
    {
      var i := start;
      while true
        invariant start <= i < |h| && (i == start || i < n)
        invariant i == start ==> h == old(h)
        invariant Rearranged(h, old(h), n) && Indexed() && OrderedAround(side, h, n, i)
        invariant i > start ==> !Before(side, h, i, Parent(i))
        decreases n - i
      {
        var j1 := 2 * i + 1;
        if j1 >= n {
          DownStop(side, h, n, i, j1);
          break;
        }
        var j := j1;
        var j2 := j1 + 1;
        if j2 < n && LessAt(j2, j1) {
          j := j2;
        }
        FirstChild(side, h, n, i, j);
        if !LessAt(j, i) {
          DownStop(side, h, n, i, j);
          break;
        }
        SwapRearranges(h, i, j, old(h), n);
        SameMembers(h, old(h), n);
        DownStep(side, h, n, i, j);
        Swap(i, j);
        i := j;
      }
      moved := i > start;
    }

    /** heap.Push: append, then up. */
    method Push(entry: OrderEntry)
      requires Valid() && entry !in h
      modifies this, h, entry
      ensures Valid()
      ensures |h| == |old(h)| + 1
      ensures forall e :: e in h <==> e in old(h) || e == entry
    {
      entry.index := |h|;
      h := h + [entry];
      ghost var pushed := h;
      Up(|h| - 1, |h|);
      SameMembers(h, pushed, |h|);
    }

    /** heap.Pop: swap the root to the end, down, drop the last. */
    method Pop() returns (entry: OrderEntry)
      requires Valid() && |h| > 0
      modifies this, h
      ensures Valid() && entry == old(h[0]) && entry.index == -1
      ensures |h| == |old(h)| - 1
      ensures forall e :: e in h <==> e in old(h) && e != entry
    {
      var n := |h| - 1;
      Swap(0, n);
      ghost var swapped := h;
      SwapMembers(old(h), 0, n);
      var moved := Down(0, n);
      SameMembers(h, swapped, n);
      CutMembers(h, swapped, n);
      entry := DropLast();
    }

    /** The repair step of heap.Remove: down, or up when down did not move. */
    method Restore(i: int, n: int)
      requires 0 <= i < n <= |h|
      requires Indexed() && OrderedAround(side, h, n, i)
      modifies this, h
      ensures Indexed() && Rearranged(h, old(h), n) && Ordered(side, h, n)
    {
      var moved := Down(i, n);
      if !moved {
        Up(i, n);
      }
    }

    /** heap.Remove(h, i): swap i to the end, down or else up, drop the last. */
    method Remove(i: int) returns (entry: OrderEntry)
      requires Valid() && 0 <= i < |h|
      modifies this, h
      ensures Valid() && entry == old(h[i]) && entry.index == -1
      ensures |h| == |old(h)| - 1
      ensures forall e :: e in h <==> e in old(h) && e != entry
    {
      hide Ordered, OrderedAround, OrderedAbove;
      var n := |h| - 1;
      if n != i {
        ReplaceByLast(side, h, i);
        SwapMembers(h, i, n);
        Swap(i, n);
        ghost var swapped := h;
        Restore(i, n);
        SameMembers(h, swapped, n);
        CutMembers(h, swapped, n);
      } else {
        CutOrdered(side, h, n);
        CutMembers(h, h, n);
      }
      CutOrdered(side, h, n);
      entry := DropLast();
    }

    /** The Pop of heap.Interface: cut the last entry off and clear its index. */
    method DropLast() returns (entry: OrderEntry)
      requires Indexed() && |h| > 0
      modifies this, h
      ensures Indexed() && h == old(h)[..|old(h)| - 1]
      ensures entry == old(h)[|old(h)| - 1] && entry.index == -1
    {
      entry := h[|h| - 1];
      entry.index := -1;
      h := h[..|h| - 1];
    }
  }
}
