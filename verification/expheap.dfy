// The expiry heap: Go's container/heap over a slice of items ordered by expiry.
module ExpiryHeap {
  import opened SetModel

  function Parent(j: int): int
  {
    (j - 1) / 2
  }

  lemma ParentIs(i: nat, j: nat)
    requires j > 0
    ensures 0 <= Parent(j) < j
    ensures Parent(j) == i <==> j == 2 * i + 1 || j == 2 * i + 2
  {}

  // Every item is no earlier than its parent.
  ghost predicate Ordered(h: seq<ExpItem>)
  {
    OrderedFrom(h, 0, |h|)
  }

  // Below position n, everyone whose parent is at from or later is no earlier than it.
  ghost predicate OrderedFrom(h: seq<ExpItem>, from: nat, n: nat)
    requires n <= |h|
  {
    forall j :: 0 < j < n && from <= Parent(j) ==> h[Parent(j)].exp <= h[j].exp
  }

  // The same, except between i and its children, who are no earlier than i's parent.
  ghost predicate Sinking(h: seq<ExpItem>, from: nat, i: nat, n: nat)
    requires n <= |h|
  {
    && (forall j :: 0 < j < n && from <= Parent(j) && Parent(j) != i ==> h[Parent(j)].exp <= h[j].exp)
    && (forall j :: 0 < j < n && Parent(j) == i && i > from && from <= Parent(i) ==> h[Parent(i)].exp <= h[j].exp)
  }

  // Ordered except between i and its parent, who is no later than i's children.
  ghost predicate Climbing(h: seq<ExpItem>, i: nat)
  {
    && (forall j :: 0 < j < |h| && j != i ==> h[Parent(j)].exp <= h[j].exp)
    && (forall j :: 0 < j < |h| && Parent(j) == i && 0 < i < |h| ==> h[Parent(i)].exp <= h[j].exp)
  }

  lemma {:induction false} TopIsLeast(h: seq<ExpItem>, k: nat)
    requires Ordered(h) && k < |h|
    ensures h[0].exp <= h[k].exp
  {
    if k > 0 {
      TopIsLeast(h, Parent(k));
    }
  }

  function Swapped(h: seq<ExpItem>, i: nat, j: nat): (r: seq<ExpItem>)
    requires i < |h| && j < |h|
    ensures |r| == |h| && multiset(r) == multiset(h)
  {
    h[i := h[j]][j := h[i]]
  }

  lemma SwapUp(h: seq<ExpItem>, i: nat)
    requires 0 < i < |h| && Climbing(h, i) && h[i].exp < h[Parent(i)].exp
    ensures Climbing(Swapped(h, Parent(i), i), Parent(i))
  {
    var p := Parent(i);
    var g := Swapped(h, p, i);
    forall j | 0 < j < |h|
      ensures j != p ==> g[Parent(j)].exp <= g[j].exp
      ensures Parent(j) == p && 0 < p ==> g[Parent(p)].exp <= g[j].exp
    {
      ParentIs(p, j);
      ParentIs(i, j);
      if p > 0 {
        ParentIs(p, p);
        assert h[Parent(p)].exp <= h[p].exp;
      }
    }
  }

  lemma SwapDown(h: seq<ExpItem>, from: nat, i: nat, c: nat, n: nat)
    requires from <= i && 0 < c < n <= |h| && Parent(c) == i && Sinking(h, from, i, n)
    requires h[c].exp < h[i].exp
    requires forall j :: 0 < j < n && Parent(j) == i ==> h[c].exp <= h[j].exp
    ensures Sinking(Swapped(h, i, c), from, c, n)
  {
    var g := Swapped(h, i, c);
    ParentIs(i, c);
    forall j | 0 < j < n
      ensures from <= Parent(j) && Parent(j) != c ==> g[Parent(j)].exp <= g[j].exp
      ensures Parent(j) == c ==> g[Parent(c)].exp <= g[j].exp
    {
      ParentIs(i, j);
      ParentIs(c, j);
    }
  }

  lemma SinkingDone(h: seq<ExpItem>, from: nat, i: nat, n: nat)
    requires n <= |h| && Sinking(h, from, i, n)
    requires forall j :: 0 < j < n && Parent(j) == i ==> h[i].exp <= h[j].exp
    ensures OrderedFrom(h, from, n)
  {}

  lemma LeastChild(h: seq<ExpItem>, i: nat, c: nat, n: nat)
    requires n <= |h| && 2 * i + 1 < n
    requires c == if 2 * i + 2 < n && h[2 * i + 2].exp < h[2 * i + 1].exp then 2 * i + 2 else 2 * i + 1
    ensures forall j :: 0 < j < n && Parent(j) == i ==> h[c].exp <= h[j].exp
  {
    forall j | 0 < j < n && Parent(j) == i
      ensures h[c].exp <= h[j].exp
    {
      ParentIs(i, j);
    }
  }

  lemma NoChild(h: seq<ExpItem>, i: nat, n: nat)
    requires n <= |h| && n <= 2 * i + 1
    ensures forall j :: 0 < j < n ==> Parent(j) != i
  {
    forall j | 0 < j < n
      ensures Parent(j) != i
    {
      ParentIs(i, j);
    }
  }

  // Exchanging the ends of a heap spoils it only at the top, last place aside.
  lemma SwapEnds(h: seq<ExpItem>)
    requires Ordered(h) && h != []
    ensures Sinking(Swapped(h, 0, |h| - 1), 0, 0, |h| - 1)
  {
    var n := |h| - 1;
    var g := Swapped(h, 0, n);
    forall j | 0 < j < n && Parent(j) != 0
      ensures g[Parent(j)].exp <= g[j].exp
    {
      ParentIs(0, j);
      assert h[Parent(j)].exp <= h[j].exp;
    }
  }

  class ExpHeap {
    var items: seq<ExpItem>

    constructor ()
      ensures items == []
    {
      items := [];
    }

    ghost predicate Valid()
      reads this
    {
      Ordered(items)
    }

    // up: the item at j0 climbs until its parent is no later.
    method Up(j0: nat)
      requires j0 < |items| && Climbing(items, j0)
      modifies this
      ensures Valid() && multiset(items) == old(multiset(items))
    {
      var j := j0;
      while j > 0 && items[j].exp < items[Parent(j)].exp
        invariant 0 <= j < |items| && Climbing(items, j)
        invariant multiset(items) == old(multiset(items))
      {
        SwapUp(items, j);
        ParentIs(Parent(j), j);
        items := Swapped(items, Parent(j), j);
        j := Parent(j);
      }
    }

    // down: the item at i0 sinks below n until no child is earlier.
    method Down(i0: nat, n: nat)
      requires n <= |items| && Sinking(items, i0, i0, n)
      modifies this
      ensures |items| == old(|items|) && items[n..] == old(items[n..])
      ensures OrderedFrom(items, i0, n)
      ensures multiset(items) == old(multiset(items))
    {
      var i := i0;
      while 2 * i + 1 < n
        invariant i0 <= i
        invariant |items| == old(|items|) && items[n..] == old(items[n..])
        invariant Sinking(items, i0, i, n)
        invariant multiset(items) == old(multiset(items))
        decreases n - i
      {
        var j := 2 * i + 1;
        if j + 1 < n && items[j + 1].exp < items[j].exp {
          j := j + 1;
        }
        ParentIs(i, j);
        LeastChild(items, i, j, n);
        if items[j].exp >= items[i].exp {
          SinkingDone(items, i0, i, n);
          return;
        }
        SwapDown(items, i0, i, j, n);
        items := Swapped(items, i, j);
        i := j;
      }
      NoChild(items, i, n);
      SinkingDone(items, i0, i, n);
    }

    method Init()
      modifies this
      ensures Valid() && multiset(items) == old(multiset(items))
    {
      var n := |items|;
      var i := n / 2;
      while i > 0
        invariant 0 <= i <= n / 2 && |items| == n
        invariant OrderedFrom(items, i, n)
        invariant multiset(items) == old(multiset(items))
      {
        i := i - 1;
        Down(i, n);
      }
    }

    method Push(x: ExpItem)
      requires Valid()
      modifies this
      ensures Valid() && multiset(items) == old(multiset(items)) + multiset{x}
    {
      items := items + [x];
      Up(|items| - 1);
    }

    method Pop() returns (x: ExpItem)
      requires Valid() && items != []
      modifies this
      ensures Valid() && x == old(items[0])
      ensures old(multiset(items)) == multiset(items) + multiset{x}
      ensures |items| == old(|items|) - 1
    {
      var n := |items| - 1;
      items := Swapped(items, 0, n);
      SwapEnds(old(items));
      Down(0, n);
      x := items[n];
      assert x == items[n..][0];
      assert items == items[..n] + [x];
      items := items[..n];
    }
  }
}
