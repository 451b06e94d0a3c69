/** RoundRobinRouter of router.py and the fairness of its rotation. */
module RoundRobin {
  import opened Wrappers
  import opened Pools

  ghost predicate Distinct<T>(s: seq<T>) {
    forall i, j :: 0 <= i < j < |s| ==> s[i] != s[j]
  }

  /** `list.remove(x)`: drops the first copy. */
  function RemoveFirst<T(==)>(s: seq<T>, x: T): seq<T> {
    if s == [] then [] else if s[0] == x then s[1..] else [s[0]] + RemoveFirst(s[1..], x)
  }

  lemma {:induction false} RemoveFirstMembers<T>(s: seq<T>, x: T, y: T)
    ensures y in RemoveFirst(s, x) ==> y in s
    ensures y in s && y != x ==> y in RemoveFirst(s, x)
    ensures Distinct(s) ==> Distinct(RemoveFirst(s, x)) && x !in RemoveFirst(s, x)
    decreases |s|
  {
    if s != [] {
      var t := s[1..];
      RemoveFirstMembers(t, x, y);
      if s[0] != x && Distinct(s) {
        assert Distinct(t);
        RemoveFirstMembers(t, x, s[0]);
        var r := RemoveFirst(t, x);
        forall i | 0 <= i < |r| ensures r[i] != s[0] {
          assert r[i] in r;
        }
      }
    }
  }

  /** The backend `i` places ahead of the cursor. */
  function Ahead(pool: seq<Backend>, index: nat, i: nat): Backend
    requires pool != []
  {
    pool[(index + i) % |pool|]
  }

  /** The first copy goes, and everything else stays where it is. */
  lemma {:induction false} RemoveFirstIs<T>(a: seq<T>, x: T, b: seq<T>)
    requires x !in a
    ensures RemoveFirst(a + [x] + b, x) == a + b
    decreases |a|
  {
    if a == [] {
      assert a + [x] + b == [x] + b && ([x] + b)[1..] == b;
    } else {
      RemoveFirstIs(a[1..], x, b);
      assert (a + [x] + b)[0] == a[0] && (a + [x] + b)[1..] == a[1..] + [x] + b;
      assert [a[0]] + (a[1..] + b) == a + b;
    }
  }

  lemma {:induction false} AbsentStays<T>(s: seq<T>, x: T)
    requires x !in s
    ensures RemoveFirst(s, x) == s
    decreases |s|
  {
    if s != [] {
      AbsentStays(s[1..], x);
    }
  }

  /** A full turn of the cursor meets every backend. */
  lemma TurnMeetsAll(pool: seq<Backend>, index: nat, b: Backend)
    requires b in pool
    ensures exists k :: 0 <= k < |pool| && Ahead(pool, index, k) == b
  {
    var n := |pool|;
    var j :| 0 <= j < n && pool[j] == b;
    WindowIsRotation(pool, index);
    var c := index % n;
    var k := if j >= c then j - c else j + n - c;
    assert Rotation(pool, index, n)[k] == (pool[c..] + pool[..c])[k] == b;
    assert Ahead(pool, index, k) == b;
  }

  // ---------- Fairness ----------

  /** The picks of `k` turns without exclusions. */
  function Rotation(pool: seq<Backend>, index: nat, k: nat): seq<Backend>
    requires pool != []
  {
    seq(k, i requires 0 <= i < k => Ahead(pool, index, i))
  }

  /** Pick `i` is the backend `i` places behind the cursor, round and round. */
  lemma RotationIs(pool: seq<Backend>, index: nat, k: nat, i: nat)
    requires pool != [] && i < k
    ensures |Rotation(pool, index, k)| == k && Rotation(pool, index, k)[i] == pool[(index + i) % |pool|]
  {
  }

  /** Quotient and remainder are pinned down by any decomposition. */
  lemma DivModIs(a: nat, q: nat, r: nat, n: nat)
    requires r < n && a == q * n + r
    ensures a / n == q && a % n == r
  {
    var d := a / n - q;
    assert a == (a / n) * n + a % n;
    assert d * n == r - a % n;
    assert d >= 1 ==> d * n >= n;
    assert d <= -1 ==> d * n + n <= 0;
  }

  lemma WrapsFrom(a: nat, i: nat, n: nat, q: nat, c: nat)
    requires i < n && c < n && a == q * n + c
    ensures (a + i) % n == if c + i < n then c + i else c + i - n
  {
    if c + i < n {
      DivModIs(a + i, q, c + i, n);
    } else {
      assert (q + 1) * n == q * n + n;
      DivModIs(a + i, q + 1, c + i - n, n);
    }
  }

  lemma ModWraps(a: nat, i: nat, n: nat)
    requires i < n
    ensures (a + i) % n == if a % n + i < n then a % n + i else a % n + i - n
  {
    WrapsFrom(a, i, n, a / n, a % n);
  }

  /** One window of |pool| picks is the pool itself, rotated. */
  lemma WindowIsRotation(pool: seq<Backend>, index: nat)
    requires pool != []
    ensures var c := index % |pool|; Rotation(pool, index, |pool|) == pool[c..] + pool[..c]
  {
    var n, c := |pool|, index % |pool|;
    forall i | 0 <= i < n ensures Rotation(pool, index, n)[i] == (pool[c..] + pool[..c])[i] {
      ModWraps(index, i, n);
    }
  }

  /** Every |pool| consecutive picks are a permutation of the pool. */
  lemma WindowIsPermutation(pool: seq<Backend>, index: nat)
    requires pool != []
    ensures multiset(Rotation(pool, index, |pool|)) == multiset(pool)
  {
    WindowIsRotation(pool, index);
    var c := index % |pool|;
    assert pool == pool[..c] + pool[c..];
  }

  lemma {:induction false} DistinctCount<T>(s: seq<T>, x: T)
    requires Distinct(s)
    ensures multiset(s)[x] == if x in s then 1 else 0
    decreases |s|
  {
    if s != [] {
      var t := s[..|s| - 1];
      assert s == t + [s[|s| - 1]];
      DistinctCount(t, x);
    }
  }

  lemma RotationSplits(pool: seq<Backend>, index: nat, a: nat, b: nat)
    requires pool != []
    ensures Rotation(pool, index, a + b) == Rotation(pool, index, a) + Rotation(pool, index + a, b)
  {
    var whole, parts := Rotation(pool, index, a + b), Rotation(pool, index, a) + Rotation(pool, index + a, b);
    forall i | 0 <= i < a + b ensures whole[i] == parts[i] {
      if i >= a {
        assert index + a + (i - a) == index + i;
      }
    }
  }

  /** How often `b` is among `k` picks. */
  ghost function Share(pool: seq<Backend>, index: nat, k: nat, b: Backend): nat
    requires pool != []
  {
    multiset(Rotation(pool, index, k))[b]
  }

  lemma ShareSplits(pool: seq<Backend>, index: nat, x: nat, y: nat, b: Backend)
    requires pool != []
    ensures Share(pool, index, x + y, b) == Share(pool, index, x, b) + Share(pool, index + x, y, b)
  {
    RotationSplits(pool, index, x, y);
  }

  lemma FullTurn(pool: seq<Backend>, index: nat, b: Backend)
    requires Distinct(pool) && b in pool
    ensures Share(pool, index, |pool|, b) == 1
  {
    WindowIsPermutation(pool, index);
    DistinctCount(pool, b);
  }

  /** `q` full turns and `r` more picks choose every backend `q` times, or once more. */
  lemma {:induction false} TurnsAndRest(pool: seq<Backend>, index: nat, q: nat, r: nat, k: nat, b: Backend)
    requires Distinct(pool) && b in pool && r < |pool| && k == q * |pool| + r
    ensures q <= Share(pool, index, k, b) <= q + (if r > 0 then 1 else 0)
    decreases q
  {
    hide Distinct, Share;
    var n := |pool|;
    FullTurn(pool, index, b);
    if q == 0 {
      ShareSplits(pool, index, r, n - r, b);
      NoPicks(pool, index, b);
    } else {
      assert (q - 1) * n == q * n - n && q * n >= n;
      TurnsAndRest(pool, index + n, q - 1, r, k - n, b);
      ShareSplits(pool, index, n, k - n, b);
    }
  }

  lemma NoPicks(pool: seq<Backend>, index: nat, b: Backend)
    requires pool != []
    ensures Share(pool, index, 0, b) == 0
  {
  }

  lemma RoundUp(k: nat, n: nat, q: nat, r: nat)
    requires r < n && k == q * n + r
    ensures (k + n - 1) / n == q + (if r > 0 then 1 else 0)
  {
    if r > 0 {
      assert (q + 1) * n == q * n + n;
      DivModIs(k + n - 1, q + 1, r - 1, n);
    } else {
      DivModIs(k + n - 1, q, n - 1, n);
    }
  }

  /** From any cursor, over any number `k` of picks from a stable duplicate-free pool of `n`,
      every backend is picked floor(k/n) or ceil(k/n) times. */
  lemma Fairness(pool: seq<Backend>, index: nat, k: nat, b: Backend)
    requires Distinct(pool) && b in pool
    ensures k / |pool| <= Share(pool, index, k, b) <= (k + |pool| - 1) / |pool|
  {
    hide Share, Distinct;
    TurnsAndRest(pool, index, k / |pool|, k % |pool|, k, b);
    RoundUp(k, |pool|, k / |pool|, k % |pool|);
  }

  class RoundRobinRouter {
    const allBackends: seq<Backend>
    var healthy: seq<Backend>
    var index: nat

    constructor (backends: seq<Backend>)
      ensures allBackends == healthy == backends && index == 0
    {
      allBackends, healthy, index := backends, backends, 0;
    }

    /** Picks the first backend at or ahead of the cursor that is not excluded, and moves the cursor
        behind it; without one, the cursor makes a full turn. */
    method NextBackend(skip: set<Backend>) returns (r: Option<Backend>)
      modifies this`index
      ensures r == None <==> forall b :: b in healthy ==> b in skip
      ensures r == None ==> index == old(index) + |healthy|
      ensures r != None ==>
                var k := index - old(index) - 1;
                0 <= k < |healthy| && r == Some(healthy[(old(index) + k) % |healthy|]) && r.value !in skip
                && forall i :: 0 <= i < k ==> Ahead(healthy, old(index), i) in skip
    {
      if healthy == [] {
        return None;
      }
      var n := |healthy|;
      for i := 0 to n
        invariant index == old(index) + i
        invariant forall k :: 0 <= k < i ==> Ahead(healthy, old(index), k) in skip
      {
        var backend := healthy[index % n];
        assert backend == Ahead(healthy, old(index), i);
        index := index + 1;
        if backend !in skip {
          return Some(backend);
        }
      }
      forall b | b in healthy ensures b in skip {
        TurnMeetsAll(healthy, old(index), b);
      }
      return None;
    }

    method MarkUnhealthy(backend: Backend)
      modifies this`healthy
      ensures healthy == RemoveFirst(old(healthy), backend)
    {
      if backend in healthy {
        healthy := RemoveFirst(healthy, backend);
      } else {
        AbsentStays(healthy, backend);
      }
    }

    method MarkHealthy(backend: Backend)
      modifies this`healthy
      ensures healthy == if backend in old(healthy) then old(healthy) else old(healthy) + [backend]
      ensures old(Distinct(healthy)) ==> Distinct(healthy)
    {
      if backend !in healthy {
        healthy := healthy + [backend];
      }
    }

    /** Consecutive picks from a stable pool without exclusions. */
    method PickMany(k: nat) returns (picks: seq<Backend>)
      requires healthy != []
      modifies this`index
      ensures index == old(index) + k && picks == Rotation(healthy, old(index), k)
    {
      picks := [];
      while |picks| < k
        invariant |picks| <= k && index == old(index) + |picks|
        invariant picks == Rotation(healthy, old(index), |picks|)
      {
        var b := NextBackend({});
        assert healthy[0] in healthy;
        RotationSplits(healthy, old(index), |picks|, 1);
        assert Rotation(healthy, old(index) + |picks|, 1) == [Ahead(healthy, old(index) + |picks|, 0)];
        picks := picks + [b.value];
      }
    }
  }
}
