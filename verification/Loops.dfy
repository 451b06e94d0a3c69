/** A `while True` loop over one integer position: each turn stops with a result or moves on. */
module Loops {
  datatype Turn<R> = Stop(result: R) | Advance(pos: int)

  datatype Outcome<R> = Running(pos: int) | Returned(result: R)

  /** The loop after at most `fuel` turns from `pos`. */
  function Run<R>(step: int -> Turn<R>, pos: int, fuel: nat): Outcome<R>
    decreases fuel
  {
    if fuel == 0 then Running(pos)
    else
      match step(pos)
      case Stop(r) => Returned(r)
      case Advance(p) => Run(step, p, fuel - 1)
  }

  ghost predicate Halts<R>(step: int -> Turn<R>) {
    exists fuel: nat :: Run(step, 0, fuel).Returned?
  }

  ghost predicate Returns<R>(step: int -> Turn<R>, r: R) {
    exists fuel: nat :: Run(step, 0, fuel) == Returned(r)
  }

  lemma {:induction false} RunSplits<R>(step: int -> Turn<R>, pos: int, a: nat, b: nat)
    ensures match Run(step, pos, a)
            case Running(p) => Run(step, pos, a + b) == Run(step, p, b)
            case Returned(r) => Run(step, pos, a + b) == Returned(r)
    decreases a
  {
    if a > 0 && step(pos).Advance? {
      RunSplits(step, step(pos).pos, a - 1, b);
    }
  }

  /** The answer does not depend on the number of turns allowed. */
  lemma ReturnsUnique<R>(step: int -> Turn<R>, r: R, q: R)
    requires Returns(step, r) && Returns(step, q)
    ensures r == q
  {
    var a: nat, b: nat :| Run(step, 0, a) == Returned(r) && Run(step, 0, b) == Returned(q);
    RunSplits(step, 0, a, b);
    RunSplits(step, 0, b, a);
  }

  /** No turn leaves the interval [lo, hi). */
  ghost predicate Bounded<R(!new)>(step: int -> Turn<R>, lo: int, hi: int) {
    lo <= 0 < hi && forall p :: step(p).Advance? ==> lo <= step(p).pos < hi
  }

  lemma {:induction false} RunRange<R(!new)>(step: int -> Turn<R>, lo: int, hi: int, k: nat)
    requires Bounded(step, lo, hi)
    ensures Run(step, 0, k).Running? ==> lo <= Run(step, 0, k).pos < hi
  {
    if k > 0 {
      RunRange(step, lo, hi, k - 1);
      RunSplits(step, 0, k - 1, 1);
      if Run(step, 0, k - 1).Running? {
        var p := Run(step, 0, k - 1).pos;
        assert Run(step, p, 1) == match step(p) case Stop(r) => Returned(r) case Advance(q) => Run(step, q, 0);
      }
    }
  }

  /** Among more than `hi - lo` integers in [lo, hi) two are equal. */
  lemma {:induction false} Pigeonhole(xs: seq<int>, lo: int, hi: int)
    requires lo <= hi && |xs| > hi - lo
    requires forall i :: 0 <= i < |xs| ==> lo <= xs[i] < hi
    ensures exists i, j :: 0 <= i < j < |xs| && xs[i] == xs[j]
    decreases hi - lo
  {
    if hi - 1 !in xs {
      if lo < hi {
        Pigeonhole(xs, lo, hi - 1);
      }
    } else {
      var k :| 0 <= k < |xs| && xs[k] == hi - 1;
      var ys := xs[..k] + xs[k + 1..];
      if hi - 1 in ys {
        var m :| 0 <= m < |ys| && ys[m] == hi - 1;
        assert xs[if m < k then m else m + 1] == xs[k];
      } else {
        forall i | 0 <= i < |ys| ensures lo <= ys[i] < hi - 1 {
          assert ys[i] == xs[if i < k then i else i + 1] && ys[i] in ys;
        }
        Pigeonhole(ys, lo, hi - 1);
        var i, j :| 0 <= i < j < |ys| && ys[i] == ys[j];
        assert xs[if i < k then i else i + 1] == xs[if j < k then j else j + 1];
      }
    }
  }

  /** The loop stands at the same position after `i` and after `j` turns. */
  ghost predicate Meets<R>(step: int -> Turn<R>, i: nat, j: nat) {
    i < j && Run(step, 0, i).Running? && Run(step, 0, i) == Run(step, 0, j)
  }

  /** A bounded loop that never ends comes back to some position. */
  lemma EndlessRevisits<R(!new)>(step: int -> Turn<R>, lo: int, hi: int)
    requires Bounded(step, lo, hi) && !Halts(step)
    ensures exists i: nat, j: nat :: Meets(step, i, j)
  {
    var n := hi - lo + 1;
    var xs := seq(n, k requires 0 <= k < n =>
      var r := Run(step, 0, k); if r.Running? then r.pos else 0);
    forall k | 0 <= k < n ensures Run(step, 0, k) == Running(xs[k]) && lo <= xs[k] < hi {
      assert !Run(step, 0, k).Returned?;
      RunRange(step, lo, hi, k);
    }
    Pigeonhole(xs, lo, hi);
    var i, j :| 0 <= i < j < |xs| && xs[i] == xs[j];
    assert Meets(step, i, j);
  }

  lemma {:induction false} MeetsForever<R>(step: int -> Turn<R>, i: nat, j: nat, fuel: nat)
    requires Meets(step, i, j)
    ensures Run(step, 0, fuel).Running?
  {
    if fuel <= j {
      RunSplits(step, 0, fuel, j - fuel);
    } else {
      MeetsForever(step, i, j, i + fuel - j);
      RunSplits(step, 0, i, fuel - j);
      RunSplits(step, 0, j, fuel - j);
    }
  }

  /** From one visit to the next the loop repeats itself. */
  lemma MeetsShift<R>(step: int -> Turn<R>, i: nat, j: nat, k: nat)
    requires Meets(step, i, j) && i <= k && Run(step, 0, k).Running?
    ensures Meets(step, k, k + (j - i))
  {
    RunSplits(step, 0, i, k - i);
    RunSplits(step, 0, j, k - i);
  }

  lemma FirstTurn<R>(step: int -> Turn<R>, pos: int)
    ensures Run(step, pos, 1) == match step(pos) case Stop(r) => Returned(r) case Advance(p) => Running(p)
  {
    if step(pos).Advance? {
      assert Run(step, step(pos).pos, 0) == Running(step(pos).pos);
    }
  }
}
