/** The priority queue behind both lazy-deletion heaps: a binary heap in a list, as `heapq`
    keeps it. Entries compare by key, then by tie number. */
module HeapQ {

  datatype Entry<T> = Entry(key: int, tie: int, item: T)

  predicate Less<T>(a: Entry<T>, b: Entry<T>) {
    a.key < b.key || (a.key == b.key && a.tie < b.tie)
  }

  function Parent(j: int): int {
    (j - 1) / 2
  }

  /** The entry at `j` is not less than the one at `p`. */
  predicate Below<T>(h: seq<Entry<T>>, j: int, p: int) {
    0 <= p < |h| && 0 <= j < |h| ==> !Less(h[j], h[p])
  }

  /** The entry at `j` is not less than its parent. */
  predicate Ordered<T>(h: seq<Entry<T>>, j: int) {
    1 <= j ==> Below(h, j, Parent(j))
  }

  ghost predicate IsHeap<T>(h: seq<Entry<T>>) {
    forall j :: Ordered(h, j)
  }

  /** A heap but for the entry at `hole`, which may be less than the entries above it. */
  ghost predicate Rising<T>(h: seq<Entry<T>>, hole: int) {
    && (forall j :: j != hole ==> Ordered(h, j))
    && (forall j :: Parent(j) == hole && hole > 0 ==> Below(h, j, Parent(hole)))
  }

  /** A heap but for the entry at `hole`, which may exceed the entries below it. */
  ghost predicate Sinking<T>(h: seq<Entry<T>>, hole: int) {
    && (forall j :: Parent(j) != hole ==> Ordered(h, j))
    && (forall j :: Parent(j) == hole && hole > 0 && j > 0 ==> Below(h, j, Parent(hole)))
  }

  /** The first entry of a heap is a least one. */
  lemma {:induction false} RootIsLeast<T>(h: seq<Entry<T>>, i: nat)
    requires IsHeap(h) && i < |h|
    ensures !Less(h[i], h[0])
    decreases i
  {
    if i > 0 {
      RootIsLeast(h, Parent(i));
      assert Ordered(h, i);
    }
  }

  function Swap<T>(h: seq<T>, i: nat, j: nat): (r: seq<T>)
    requires i < |h| && j < |h|
    ensures |r| == |h|
    ensures multiset(r) == multiset(h)
  {
    h[i := h[j]][j := h[i]]
  }

  lemma RiseStep<T>(h: seq<Entry<T>>, i: nat)
    requires 0 < i < |h| && Rising(h, i) && Less(h[i], h[Parent(i)])
    ensures Rising(Swap(h, i, Parent(i)), Parent(i))
  {
    var p := Parent(i);
    var r := Swap(h, i, p);
    forall j | j != p ensures Ordered(r, j) {
      assert j != i ==> Ordered(h, j);
      if Parent(j) == i {
        assert Below(h, j, p);
      }
    }
    forall j | Parent(j) == p && p > 0 ensures Below(r, j, Parent(p)) {
      assert Ordered(h, p);
      assert j != i ==> Ordered(h, j);
    }
  }

  lemma SinkStep<T>(h: seq<Entry<T>>, i: nat, c: nat)
    requires 2 * i + 1 <= c <= 2 * i + 2 && c < |h| && Sinking(h, i) && Less(h[c], h[i])
    requires Below(h, 2 * i + 1, c) && Below(h, 2 * i + 2, c)
    ensures Sinking(Swap(h, i, c), c)
  {
    var r := Swap(h, i, c);
    forall j | Parent(j) != c ensures Ordered(r, j) {
      assert Parent(j) != i ==> Ordered(h, j);
      if j == i && i > 0 {
        assert Below(h, c, Parent(i));
      }
      if Parent(j) == i && j > 0 {
        assert j == 2 * i + 1 || j == 2 * i + 2;
      }
    }
    forall j | Parent(j) == c && j > 0 ensures Below(r, j, Parent(c)) {
      assert Parent(c) == i && Ordered(h, j);
    }
  }

  /** heappush */
  method Push<T>(h: seq<Entry<T>>, e: Entry<T>) returns (r: seq<Entry<T>>)
    requires IsHeap(h)
    ensures IsHeap(r) && multiset(r) == multiset(h) + multiset{e}
  {
    r := h + [e];
    var i := |h|;
    forall j | j != i ensures Ordered(r, j) {
      assert Ordered(h, j);
    }
    while i > 0 && Less(r[i], r[Parent(i)])
      invariant 0 <= i < |r|
      invariant multiset(r) == multiset(h) + multiset{e}
      invariant Rising(r, i)
      decreases i
    {
      RiseStep(r, i);
      i, r := Parent(i), Swap(r, i, Parent(i));
    }
    assert Ordered(r, i);
  }

  lemma SinkDone<T>(h: seq<Entry<T>>, i: nat)
    requires Sinking(h, i) && Below(h, 2 * i + 1, i) && Below(h, 2 * i + 2, i)
    ensures IsHeap(h)
  {
    forall j ensures Ordered(h, j) {
      assert Parent(j) == i && j > 0 ==> j == 2 * i + 1 || j == 2 * i + 2;
    }
  }

  lemma LastToRoot<T>(h: seq<Entry<T>>)
    requires IsHeap(h) && |h| >= 2
    ensures var n := |h| - 1; var r := h[..n][0 := h[n]];
            Sinking(r, 0) && multiset(r) + multiset{h[0]} == multiset(h)
  {
    var n := |h| - 1;
    var r := h[..n][0 := h[n]];
    assert h == [h[0]] + h[..n][1..] + [h[n]];
    assert r == [h[n]] + h[..n][1..];
    forall j | Parent(j) != 0 ensures Ordered(r, j) {
      assert Ordered(h, j);
    }
  }

  /** Moves the entry at the root down until no child is less than it. */
  method SinkRoot<T>(h: seq<Entry<T>>) returns (r: seq<Entry<T>>)
    requires Sinking(h, 0)
    ensures IsHeap(r) && multiset(r) == multiset(h)
  {
    r := h;
    var i := 0;
    while 2 * i + 1 < |r|
      invariant 0 <= i && |r| == |h|
      invariant multiset(r) == multiset(h)
      invariant Sinking(r, i)
      decreases |r| - i
    {
      var c := 2 * i + 1;
      if c + 1 < |r| && Less(r[c + 1], r[c]) {
        c := c + 1;
      }
      if !Less(r[c], r[i]) {
        break;
      }
      SinkStep(r, i, c);
      i, r := c, Swap(r, i, c);
    }
    SinkDone(r, i);
  }

  /** heappop */
  method Pop<T>(h: seq<Entry<T>>) returns (e: Entry<T>, r: seq<Entry<T>>)
    requires IsHeap(h) && h != []
    ensures IsHeap(r) && multiset(r) + multiset{e} == multiset(h)
    ensures e == h[0] && forall x :: x in h ==> !Less(x, e)
  {
    e := h[0];
    LeastAtRoot(h);
    if |h| == 1 {
      assert h == [e];
      return e, [];
    }
    var n := |h| - 1;
    LastToRoot(h);
    hide IsHeap, Sinking;
    r := SinkRoot(h[..n][0 := h[n]]);
  }

  lemma LeastAtRoot<T>(h: seq<Entry<T>>)
    requires IsHeap(h) && h != []
    ensures forall x :: x in h ==> !Less(x, h[0])
  {
    forall x | x in h ensures !Less(x, h[0]) {
      var i :| 0 <= i < |h| && h[i] == x;
      RootIsLeast(h, i);
    }
  }
}
