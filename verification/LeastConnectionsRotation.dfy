/** Sequential load on the least-connections router rotates through the backends. */
module LeastConnectionsRotation {
  import opened Wrappers
  import opened HeapQ
  import opened Pools
  import opened LeastConnections
  import RR = RoundRobin

  /** After any history the heap holds no more than what was ever listed in it, and all the work
      of next_backend (entries dropped or chosen) is paid for by what was pushed. */
  lemma WorkIsBounded(r: LeastConnectionsRouter)
    requires r.Valid()
    ensures |r.heap| <= r.initial + r.disconnects + r.rehealed
    ensures r.consumed <= r.initial + r.disconnects + r.rehealed + r.picks
  {
  }

  /** The tie number of the `m`-th current entry: the first round uses the constructor's entries,
      later ones the entries pushed on release. */
  function TieOf(m: nat, n: nat): int {
    if m < n then m + 1 else n + 2 * (m - n) + 2
  }

  /** The backend whose turn it is in round `m`. */
  function InTurn(bs: seq<Backend>, m: nat): Backend
    requires bs != []
  {
    bs[m % |bs|]
  }

  function Current(bs: seq<Backend>, m: nat): Item
    requires bs != []
  {
    Entry(0, TieOf(m, |bs|), InTurn(bs, m))
  }

  function Stale(bs: seq<Backend>, i: nat): Item
    requires bs != []
  {
    Entry(1, |bs| + 2 * i + 1, InTurn(bs, i))
  }

  /** The heap after `k` rounds: one current entry per backend, in rotation order, and one stale
      entry per round. */
  ghost predicate RotationHeap(m: multiset<Item>, bs: seq<Backend>, k: nat)
    requires bs != []
  {
    forall e :: e in m <==> ((exists j: nat :: k <= j < k + |bs| && e == Current(bs, j))
                             || (exists i: nat :: i < k && e == Stale(bs, i)))
  }

  ghost predicate AllIdle(p: Pool, bs: seq<Backend>) {
    p.healthy == (set b | b in bs) && forall b :: Load(p, b) == 0
  }

  lemma IdleAgain(p: Pool, bs: seq<Backend>, b: Backend)
    requires AllIdle(p, bs)
    ensures AllIdle(Released(Acquired(p, b), b), bs)
  {
    var q := Released(Acquired(p, b), b);
    forall c ensures Load(q, c) == 0 {
      assert Load(p, c) == 0;
    }
  }

  lemma InitiallyIdle(bs: seq<Backend>)
    ensures AllIdle(Pool(map b | b in bs :: 0, set b | b in bs), bs)
  {
    var p := Pool(map b | b in bs :: 0, set b | b in bs);
    forall c ensures Load(p, c) == 0 {
      assert c in p.counts ==> p.counts[c] == 0;
    }
  }

  lemma FirstCurrent(bs: seq<Backend>, j: nat)
    requires j < |bs|
    ensures Current(bs, j) == Entry(0, j + 1, bs[j])
  {
    RR.DivModIs(j, 0, j, |bs|);
  }

  lemma FreshIsRotation(m: multiset<Item>, bs: seq<Backend>)
    requires bs != [] && InitialHeap(m, bs, |bs|)
    ensures RotationHeap(m, bs, 0)
  {
    hide Current;
    var n := |bs|;
    forall e | e in m ensures exists j: nat :: 0 <= j < n && e == Current(bs, j) {
      FirstCurrent(bs, e.tie - 1);
    }
    forall j: nat | 0 <= j < n ensures Current(bs, j) in m {
      FirstCurrent(bs, j);
    }
  }

  /** The choice in round `k` is the `k`-th current entry, and nothing stale is in its way. */
  lemma RoundChoice(m: multiset<Item>, bs: seq<Backend>, k: nat, p: Pool, c: Option<Item>)
    requires bs != [] && RotationHeap(m, bs, k) && AllIdle(p, bs) && Choice(m, p, {}, c)
    ensures c == Some(Current(bs, k)) && c.value.item == InTurn(bs, k)
    ensures NothingStale(m, p, {}, c)
  {
    var e := Current(bs, k);
    assert e in m && Live(p, e);
    var d := c.value;
    assert d.key == 0;
    var j: nat :| k <= j < k + |bs| && d == Current(bs, j);
    assert !Less(e, d);
    assert j == k;
    assert forall f :: f in m ==> !Less(f, d);
  }

  lemma RenewedIs(bs: seq<Backend>, k: nat)
    requires bs != []
    ensures Current(bs, k + |bs|) == Entry(0, |bs| + 2 * k + 2, Current(bs, k).item)
  {
    RR.WrapsFrom(k + |bs|, 0, |bs|, k / |bs| + 1, k % |bs|);
    assert (k / |bs| + 1) * |bs| == (k / |bs|) * |bs| + |bs|;
  }

  /** One round: the choice moves to the stale entries, the released backend lines up again. */
  lemma {:induction false} RoundHeap(m: multiset<Item>, n: multiset<Item>, bs: seq<Backend>, k: nat, p: Pool, c: Item)
    requires bs != [] && RotationHeap(m, bs, k) && AllIdle(p, bs) && c == Current(bs, k)
    requires Remains(m, n, p, {}, Some(c), |bs| + 2 * k + 1)
    ensures RotationHeap(n + multiset{Entry(0, |bs| + 2 * k + 2, c.item)}, bs, k + 1)
  {
    var renewed := Entry(0, |bs| + 2 * k + 2, c.item);
    var stale := Stale(bs, k);
    var last := k + |bs|;
    RenewedIs(bs, k);
    forall e ensures e in n + multiset{renewed}
        <==> ((exists j: nat :: k + 1 <= j < k + 1 + |bs| && e == Current(bs, j))
              || (exists i: nat :: i < k + 1 && e == Stale(bs, i))) {
      if e in m && Survives(p, {}, Some(c), e) {
        assert Less(c, e);
      }
      if j: nat :| k + 1 <= j < k + 1 + |bs| && e == Current(bs, j) {
        if j < last {
          assert e in m && Less(c, e);
        }
      }
      if i: nat :| i < k + 1 && e == Stale(bs, i) {
        if i < k {
          assert e in m && Less(c, e);
        }
      }
    }
  }

  lemma InTurnIs(bs: seq<Backend>, picks: seq<Backend>)
    requires bs != [] && forall i :: 0 <= i < |picks| ==> picks[i] == InTurn(bs, i)
    ensures forall i :: 0 <= i < |picks| ==> picks[i] == bs[i % |bs|]
  {
  }

  /** From a fresh router with n listed backends, repetitions included, when each pick is released before the next,
      pick k is backends[k mod n], and after k rounds the heap holds exactly n + k entries. */
  method SequentialRounds(bs: seq<Backend>, k: nat) returns (picks: seq<Backend>, size: nat)
    requires bs != []
    ensures |picks| == k && forall i :: 0 <= i < k ==> picks[i] == bs[i % |bs|]
    ensures size == |bs| + k
  {
    hide Consistent, IsHeap, RotationHeap, Remains, Choice, NothingStale, InitialHeap,
      InTurn, Current, AllIdle, Acquired, Released, LeastLoaded, Eligible;
    var router := new LeastConnectionsRouter(bs);
    FreshIsRotation(multiset(router.heap), bs);
    InitiallyIdle(bs);
    picks := [];
    while |picks| < k
      invariant |picks| <= k && fresh(router) && router.Valid()
      invariant forall i :: 0 <= i < |picks| ==> picks[i] == InTurn(bs, i)
      invariant AllIdle(router.View(), bs)
      invariant RotationHeap(multiset(router.heap), bs, |picks|)
      invariant router.tiebreak == |bs| + 2 * |picks|
      invariant router.initial == |bs| && router.rehealed == 0
      invariant router.disconnects == router.picks == router.consumed == |picks|
    {
      ghost var m, p := multiset(router.heap), router.View();
      var b, chosen := router.NextBackend({});
      RoundChoice(m, bs, |picks|, p, chosen);
      ghost var n := multiset(router.heap);
      router.OnDisconnect(b.value);
      RoundHeap(m, n, bs, |picks|, p, chosen.value);
      IdleAgain(p, bs, b.value);
      picks := picks + [b.value];
    }
    size := |router.heap|;
    InTurnIs(bs, picks);
  }
}
