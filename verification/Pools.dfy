/** The abstract state of the least-connections router: who is healthy, who serves how many. */
module Pools {
  import opened Wrappers

  datatype Backend = Backend(host: string, port: int)

  datatype Pool = Pool(counts: map<Backend, int>, healthy: set<Backend>)

  /** `counts.get(b, 0)` */
  function Load(p: Pool, b: Backend): int {
    if b in p.counts then p.counts[b] else 0
  }

  predicate Eligible(p: Pool, skip: set<Backend>, b: Backend) {
    b in p.healthy && b !in skip
  }

  /** `b` is an eligible backend of minimum load. */
  ghost predicate LeastLoaded(p: Pool, skip: set<Backend>, b: Backend) {
    Eligible(p, skip, b) && forall c :: Eligible(p, skip, c) ==> Load(p, b) <= Load(p, c)
  }

  function Acquired(p: Pool, b: Backend): Pool {
    p.(counts := p.counts[b := Load(p, b) + 1])
  }

  function Released(p: Pool, b: Backend): Pool {
    p.(counts := p.counts[b := if Load(p, b) > 0 then Load(p, b) - 1 else 0])
  }

  function MarkedHealthy(p: Pool, b: Backend): Pool {
    Pool(if b in p.healthy || b in p.counts then p.counts else p.counts[b := 0], p.healthy + {b})
  }

  function MarkedUnhealthy(p: Pool, b: Backend): Pool {
    p.(healthy := p.healthy - {b})
  }

  // ---------- Balance ----------

  /** Healthy loads lie at most `d` apart. */
  ghost predicate Within(p: Pool, d: int) {
    forall a, b :: a in p.healthy && b in p.healthy ==> Load(p, a) - Load(p, b) <= d
  }

  /** `picks` are successive least-loaded choices from `p`, none released in between. */
  ghost predicate ArePicks(p: Pool, picks: seq<Backend>)
    decreases |picks|
  {
    picks != [] ==> LeastLoaded(p, {}, picks[0]) && ArePicks(Acquired(p, picks[0]), picks[1..])
  }

  function AfterPicks(p: Pool, picks: seq<Backend>): Pool
    decreases |picks|
  {
    if picks == [] then p else AfterPicks(Acquired(p, picks[0]), picks[1..])
  }

  /** No number of picks widens the spread of the loads beyond the larger of 1 and what it was. */
  lemma {:induction false} PicksStayBalanced(p: Pool, picks: seq<Backend>, d: int)
    requires ArePicks(p, picks) && Within(p, d) && d >= 1
    ensures Within(AfterPicks(p, picks), d)
    decreases |picks|
  {
    if picks != [] {
      PicksStayBalanced(Acquired(p, picks[0]), picks[1..], d);
    }
  }

  /** Loads that start equal differ by at most one after any number of picks. */
  lemma EqualLoadsStayWithinOne(p: Pool, picks: seq<Backend>)
    requires ArePicks(p, picks) && Within(p, 0)
    ensures Within(AfterPicks(p, picks), 1)
  {
    PicksStayBalanced(p, picks, 1);
  }
}
