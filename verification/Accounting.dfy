/** The connections of one reactor as values: router slots held, and deadlines scheduled. */
module Accounting {
  import opened Wrappers
  import opened HeapQ
  import opened Pools
  import opened Protocol
  import opened ProtocolInvariant
  import opened ProtocolRuns
  import opened Connection

  // ---------- Conservation of acquisitions ----------

  /** How many of all connections ever accepted occupy a slot of `b`. */
  function Holders(cs: seq<Conn>, b: Backend): nat
    decreases |cs|
  {
    if cs == [] then 0 else Holders(cs[..|cs| - 1], b) + Slots(cs[|cs| - 1], b)
  }

  /** The router's count of every backend is the number of its holders. */
  ghost predicate Conserved(p: Pool, cs: seq<Conn>) {
    forall b :: Load(p, b) == Holders(cs, b)
  }

  lemma {:induction false} HoldersUpdate(cs: seq<Conn>, i: nat, d: Conn, b: Backend)
    requires i < |cs|
    ensures Holders(cs[i := d], b) == Holders(cs, b) - Slots(cs[i], b) + Slots(d, b)
    ensures Slots(cs[i], b) <= Holders(cs, b)
    decreases |cs|
  {
    hide Slots;
    var n := |cs| - 1;
    if i == n {
      assert cs[i := d][..n] == cs[..n];
      SlotsRange(cs[i], b);
    } else {
      assert cs[i := d][..n] == cs[..n][i := d];
      HoldersUpdate(cs[..n], i, d, b);
      SlotsRange(cs[n], b);
    }
  }

  lemma SlotsRange(c: Conn, b: Backend)
    ensures 0 <= Slots(c, b) <= 1
  {
  }

  lemma HoldersCovered(p: Pool, cs: seq<Conn>, i: nat)
    requires Conserved(p, cs) && i < |cs|
    ensures Covered(p, cs[i])
  {
    forall b ensures Slots(cs[i], b) <= Load(p, b) {
      HoldersUpdate(cs, i, cs[i], b);
    }
  }

  /** A handler call on one connection conserves the counts. */
  lemma MovesConserve(p: Pool, cs: seq<Conn>, i: nat, q: Pool, d: Conn)
    requires Conserved(p, cs) && i < |cs| && Moves(p, cs[i], q, d)
    ensures Conserved(q, cs[i := d])
  {
    hide Holders, Load, Slots;
    forall b ensures Load(q, b) == Holders(cs[i := d], b) {
      HoldersUpdate(cs, i, d, b);
      assert Load(q, b) - Slots(d, b) == Load(p, b) - Slots(cs[i], b);
    }
  }

  /** A new connection holds nothing. */
  lemma AcceptConserves(p: Pool, cs: seq<Conn>, c: Conn)
    requires Conserved(p, cs) && c.backendAddr == None
    ensures Conserved(p, cs + [c])
  {
    forall b ensures Holders(cs + [c], b) == Holders(cs, b) {
      assert (cs + [c])[..|cs|] == cs;
    }
  }

  /** Connections engaged with `b` now. */
  function Engagements(cs: seq<Conn>, b: Backend): nat
    decreases |cs|
  {
    if cs == [] then 0
    else
      var c := cs[|cs| - 1];
      Engagements(cs[..|cs| - 1], b)
      + if c.state != ReadingRequest && c.state != Done && c.backendAddr == Some(b) then 1 else 0
  }

  /** Connections that a failed send to the client ended while engaged with `b`. */
  function Aborts(cs: seq<Conn>, b: Backend): nat
    decreases |cs|
  {
    if cs == [] then 0
    else
      var c := cs[|cs| - 1];
      Aborts(cs[..|cs| - 1], b) + if c.aborted && c.backendAddr == Some(b) then 1 else 0
  }

  ghost predicate AllInv(cs: seq<Conn>) {
    forall i :: 0 <= i < |cs| ==> Inv(cs[i]) && cs[i].id == i
  }

  /** The holders are the connections engaged now, and those that a failed send to the client
      ended: these alone never release. */
  lemma {:induction false} HoldersAre(cs: seq<Conn>, b: Backend)
    requires AllInv(cs)
    ensures Holders(cs, b) == Engagements(cs, b) + Aborts(cs, b)
    decreases |cs|
  {
    hide Inv;
    if cs != [] {
      HoldersAre(cs[..|cs| - 1], b);
      SlotIs(cs[|cs| - 1], b);
    }
  }

  lemma SlotIs(c: Conn, b: Backend)
    requires Inv(c)
    ensures Slots(c, b)
         == (if c.state != ReadingRequest && c.state != Done && c.backendAddr == Some(b) then 1 else 0)
            + (if c.aborted && c.backendAddr == Some(b) then 1 else 0)
  {
    HoldsIff(c, b);
    AbortedIsDone(c);
    hide Inv;
  }

  lemma AbortedIsDone(c: Conn)
    requires Inv(c)
    ensures c.aborted ==> c.state == Done
  {
    hide Attempts;
  }

  // ---------- Deadlines ----------

  type Due = Entry<nat>

  /** Entries are of accepted connections, of generations issued, and those of a connection's
      current generation carry its current deadline. */
  ghost predicate Faithful(h: multiset<Due>, cs: seq<Conn>) {
    forall e :: e in h ==>
      && e.item < |cs|
      && e.tie <= cs[e.item].deadlineGen
      && (e.tie == cs[e.item].deadlineGen ==> e.key == cs[e.item].deadline)
  }

  function DueOf(c: Conn): Due {
    Entry(c.deadline, c.deadlineGen, c.id)
  }

  /** Every live connection, except possibly `skip`, has an entry for its current generation. */
  ghost predicate Scheduled(h: multiset<Due>, cs: seq<Conn>, skip: int) {
    forall i :: 0 <= i < |cs| && i != skip && cs[i].state != Done ==> DueOf(cs[i]) in h
  }

  lemma StepFaithful(h: multiset<Due>, cs: seq<Conn>, i: nat, d: Conn)
    requires Faithful(h, cs) && i < |cs| && Advances(cs[i], d)
    ensures Faithful(h, cs[i := d])
  {
  }

  lemma StepScheduled(h: multiset<Due>, cs: seq<Conn>, i: nat, d: Conn)
    requires Scheduled(h, cs, -1) || Scheduled(h, cs, i)
    requires i < |cs|
    ensures Scheduled(h, cs[i := d], i)
  {
  }

  lemma PushSchedules(h: multiset<Due>, cs: seq<Conn>, i: nat)
    requires Faithful(h, cs) && Scheduled(h, cs, i) && i < |cs| && cs[i].id == i
    ensures Faithful(h + multiset{DueOf(cs[i])}, cs) && Scheduled(h + multiset{DueOf(cs[i])}, cs, -1)
  {
    var n := h + multiset{DueOf(cs[i])};
    assert DueOf(cs[i]) in n;
    forall e | e in n ensures e in h || e == DueOf(cs[i]) {
    }
  }

  /** Dropping an entry that is not the current one of a live connection. */
  lemma PopSchedules(h: multiset<Due>, rest: multiset<Due>, e: Due, cs: seq<Conn>)
    requires h == rest + multiset{e} && Faithful(h, cs) && Scheduled(h, cs, -1)
    requires e.item < |cs| && (cs[e.item].state == Done || e.tie != cs[e.item].deadlineGen)
    requires AllIds(cs)
    ensures Faithful(rest, cs) && Scheduled(rest, cs, -1)
  {
    forall f | f in rest ensures f in h {
    }
    forall i | 0 <= i < |cs| && cs[i].state != Done ensures DueOf(cs[i]) in rest {
      assert DueOf(cs[i]) in h && DueOf(cs[i]) != e;
    }
  }

  ghost predicate AllIds(cs: seq<Conn>) {
    forall i :: 0 <= i < |cs| ==> cs[i].id == i
  }

  /** Dropping the current entry of a connection that is then done. */
  lemma ExpireSchedules(h: multiset<Due>, rest: multiset<Due>, e: Due, cs: seq<Conn>, d: Conn)
    requires h == rest + multiset{e} && Faithful(h, cs) && Scheduled(h, cs, -1) && AllIds(cs)
    requires e.item < |cs| && Advances(cs[e.item], d) && d.state == Done
    ensures Faithful(rest, cs[e.item := d]) && Scheduled(rest, cs[e.item := d], -1)
  {
    var ds := cs[e.item := d];
    forall f | f in rest ensures f in h {
    }
    forall i | 0 <= i < |ds| && ds[i].state != Done ensures DueOf(ds[i]) in rest {
      assert DueOf(cs[i]) in h && DueOf(cs[i]) != e;
    }
  }

  lemma AcceptSchedules(h: multiset<Due>, cs: seq<Conn>, c: Conn)
    requires Faithful(h, cs) && Scheduled(h, cs, -1)
    ensures Faithful(h, cs + [c]) && Scheduled(h, cs + [c], |cs|)
  {
  }

  /** The naive scan: the answer of the selector's timeout, from all live connections. */
  ghost predicate TimeoutFor(t: int, now: int, cs: seq<Conn>) {
    && 0 <= t <= 1_000
    && (forall i :: 0 <= i < |cs| && cs[i].state != Done ==> t <= 0 || t <= cs[i].deadline - now)
    && (t == 1_000
        || exists i :: 0 <= i < |cs| && cs[i].state != Done
             && t == if cs[i].deadline > now then cs[i].deadline - now else 0)
  }

  /** One second, the cap of the selector's timeout. */
  const TICK := 1_000

  function Wait(c: Conn, now: int): int {
    if c.deadline > now then c.deadline - now else 0
  }

  /** A valid current entry at the root of the heap is the earliest live deadline. */
  lemma RootIsEarliest(h: seq<Due>, cs: seq<Conn>, now: int)
    requires IsHeap(h) && h != [] && Scheduled(multiset(h), cs, -1) && AllIds(cs)
    requires h[0].item < |cs| && cs[h[0].item].state != Done && h[0].key == cs[h[0].item].deadline
    ensures TimeoutFor(if Wait(cs[h[0].item], now) < TICK then Wait(cs[h[0].item], now) else TICK, now, cs)
  {
    LeastAtRoot(h);
    forall i | 0 <= i < |cs| && cs[i].state != Done ensures h[0].key <= cs[i].deadline {
      assert DueOf(cs[i]) in multiset(h);
      assert !Less(DueOf(cs[i]), h[0]);
    }
    assert Wait(cs[h[0].item], now) >= 0;
  }
}
